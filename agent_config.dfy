/**
 * The agent configuration file and its loader: entry and file validators,
 * applying a loaded configuration to the registry (register what is enabled
 * and missing, never unregister), the reload diff against the previous
 * configuration, and adding or removing entries of the loaded configuration.
 *
 * Reading and writing the file are outside the model: a reload is given the
 * parsed file (or the reason it could not be read), and every registration
 * made during one call is stamped with the same instant `now`.
 */
module AgentConfig {
  import opened Common
  import opened Json
  import opened Agents
  import opened Registry

  /** `AgentConfigEntry` */
  datatype ConfigEntry = ConfigEntry(
    agentId: string,
    name: string,
    description: string,
    domain: Domain,
    capabilities: seq<Capability>,
    mcpServerUrl: Option<string>,
    status: AgentStatus,
    metadata: Object,
    enabled: bool)

  /** `AgentConfigFile` */
  datatype ConfigFile = ConfigFile(
    version: string,
    description: string,
    agents: seq<ConfigEntry>,
    createdAt: string,
    updatedAt: string)

  /**
   * `AgentConfigEntry(...)`: agent_id and name are stripped and must not be
   * empty; the two validators report together.
   */
  function NewConfigEntry(agentId: string, name: string, description: string, domain: Domain,
                          capabilities: seq<Capability>, mcpServerUrl: Option<string>, status: AgentStatus,
                          metadata: Object, enabled: bool): (r: Result<ConfigEntry, seq<string>>)
    ensures r.Ok? <==> !IsBlank(agentId) && !IsBlank(name)
    ensures r.Ok? ==> (r.value.agentId == Strip(agentId) && r.value.agentId != []
      && r.value.name == Strip(name) && r.value.name != []
      && r.value == ConfigEntry(Strip(agentId), Strip(name), description, domain, capabilities,
                                mcpServerUrl, status, metadata, enabled))
    ensures r.Err? ==> |r.error| == (if IsBlank(agentId) then 1 else 0) + (if IsBlank(name) then 1 else 0)
  {
    var id := StripNonBlank(agentId);
    var n := StripNonBlank(name);
    if id.Some? && n.Some? then
      Ok(ConfigEntry(id.value, n.value, description, domain, capabilities, mcpServerUrl, status, metadata, enabled))
    else
      Err((if id.None? then ["agent_id must not be empty"] else []) +
          (if n.None? then ["name must not be empty"] else []))
  }

  /** `AgentConfigFile(...)`: the version is stripped and must not be empty. */
  function NewConfigFile(version: string, description: string, agents: seq<ConfigEntry>,
                         createdAt: string, updatedAt: string): (r: Result<ConfigFile, seq<string>>)
    ensures r.Ok? <==> !IsBlank(version)
    ensures r.Ok? ==> r.value == ConfigFile(Strip(version), description, agents, createdAt, updatedAt)
  {
    match StripNonBlank(version)
    case None => Err(["version must not be empty"])
    case Some(v) => Ok(ConfigFile(v, description, agents, createdAt, updatedAt))
  }

  /** Why a loader operation fails (`AgentConfigError`, or the registration's validation error). */
  datatype LoaderError =
    | NoConfigLoaded
    | InvalidRegistration(agentId: string, errors: seq<string>)
    | AlreadyInConfig(agentId: string)
    | NotInConfig(agentId: string)
    | LoadFailed(message: string)

  /** The `AgentRegistration` built from an entry: it applies the registration validators. */
  function Registration(e: ConfigEntry, now: int): (r: Result<Agent, seq<string>>)
    ensures r.Ok? ==> r.value.agentId == e.agentId && r.value.metadata == e.metadata
  {
    NewAgent(e.agentId, e.name, e.description, e.domain, e.capabilities, e.mcpServerUrl,
             e.status, now, None, e.metadata)
  }

  /** `sum(1 for a in agents if a.enabled)` */
  function EnabledCount(entries: seq<ConfigEntry>): (n: nat)
    ensures n <= |entries|
    decreases |entries|
  {
    if entries == [] then 0
    else EnabledCount(entries[..|entries| - 1]) + (if entries[|entries| - 1].enabled then 1 else 0)
  }

  // ------------------------------------------------------------------
  // apply_to_registry
  // ------------------------------------------------------------------

  /** The loop state of `apply_to_registry`: the registry and the three counters. */
  datatype ApplyProgress = ApplyProgress(agents: map<string, Agent>, added: nat, skipped: nat, disabled: nat,
                                         failure: Option<LoaderError>)

  /** One entry: disabled ones are counted, present ones skipped, the rest registered. */
  function ApplyEntry(p: ApplyProgress, e: ConfigEntry, now: int): ApplyProgress {
    if p.failure.Some? then p else AdmitEntry(p, e, Registration(e, now))
  }

  /** `ApplyEntry` once the registration the entry would get is known; it is built only when needed. */
  function AdmitEntry(p: ApplyProgress, e: ConfigEntry, registration: Result<Agent, seq<string>>): ApplyProgress {
    if !e.enabled then p.(disabled := p.disabled + 1)
    else if e.agentId in p.agents then p.(skipped := p.skipped + 1)
    else
      match registration
      case Err(errors) => p.(failure := Some(InvalidRegistration(e.agentId, errors)))
      case Ok(a) => p.(agents := p.agents[e.agentId := a], added := p.added + 1)
  }

  /** The loop over the entries, in order, as a specification. */
  function ApplyAll(agents: map<string, Agent>, entries: seq<ConfigEntry>, now: int): ApplyProgress
    decreases |entries|
  {
    if entries == [] then ApplyProgress(agents, 0, 0, 0, None)
    else ApplyEntry(ApplyAll(agents, entries[..|entries| - 1], now), entries[|entries| - 1], now)
  }

  /**
   * One entry never drops or replaces a registration, stores a new one under
   * its own id, and registers an enabled entry unless it fails.
   */
  lemma AdmitEntryGrows(p: ApplyProgress, e: ConfigEntry, registration: Result<Agent, seq<string>>)
    requires registration.Ok? ==> registration.value.agentId == e.agentId
    ensures var q := AdmitEntry(p, e, registration).agents;
      (forall id :: id in p.agents ==> id in q && q[id] == p.agents[id])
      && (Keyed(p.agents) ==> Keyed(q))
    ensures p.failure.None? && AdmitEntry(p, e, registration).failure.None? && e.enabled ==>
      e.agentId in AdmitEntry(p, e, registration).agents
  {
  }

  /** A failure stops the loop: once set it stays, so a clean end means every prefix ran clean. */
  lemma {:induction false} ApplyAllClean(agents: map<string, Agent>, entries: seq<ConfigEntry>, now: int, k: nat)
    requires k <= |entries| && ApplyAll(agents, entries, now).failure.None?
    ensures ApplyAll(agents, entries[..k], now).failure.None?
    decreases |entries|
  {
    assert entries[..|entries|] == entries;
    if k < |entries| {
      var init := entries[..|entries| - 1];
      ApplyAllClean(agents, init, now, k);
      assert init[..k] == entries[..k];
    }
  }

  /** After a failure the remaining entries change nothing. */
  lemma {:induction false} ApplyAllFailed(agents: map<string, Agent>, entries: seq<ConfigEntry>, now: int, k: nat)
    requires k <= |entries| && ApplyAll(agents, entries[..k], now).failure.Some?
    ensures ApplyAll(agents, entries, now) == ApplyAll(agents, entries[..k], now)
    decreases |entries| - k
  {
    if k < |entries| {
      assert entries[..k + 1][..k] == entries[..k];
      ApplyAllFailed(agents, entries, now, k + 1);
    } else {
      assert entries[..k] == entries;
    }
  }

  /**
   * Each entry is counted exactly once: disabled, skipped or added sum to the
   * number of entries, and the disabled count is the number of disabled entries.
   */
  lemma {:induction false} ApplyAllCounts(agents: map<string, Agent>, entries: seq<ConfigEntry>, now: int)
    requires ApplyAll(agents, entries, now).failure.None?
    ensures var p := ApplyAll(agents, entries, now);
      p.added + p.skipped + p.disabled == |entries| && p.disabled == |entries| - EnabledCount(entries)
    decreases |entries|
  {
    if entries != [] {
      var init := entries[..|entries| - 1];
      ApplyAllClean(agents, entries, now, |entries| - 1);
      ApplyAllCounts(agents, init, now);
    }
  }

  /** Nothing is unregistered or overwritten: every agent already registered stays as it was. */
  lemma {:induction false} ApplyAllKeeps(agents: map<string, Agent>, entries: seq<ConfigEntry>, now: int)
    ensures var r := ApplyAll(agents, entries, now).agents;
      forall id :: id in agents ==> id in r && r[id] == agents[id]
    ensures Keyed(agents) ==> Keyed(ApplyAll(agents, entries, now).agents)
    decreases |entries|
  {
    if entries != [] {
      var p := ApplyAll(agents, entries[..|entries| - 1], now);
      var e := entries[|entries| - 1];
      ApplyAllKeeps(agents, entries[..|entries| - 1], now);
      AdmitEntryGrows(p, e, Registration(e, now));
    }
  }


  /** After a clean apply every enabled entry's agent is registered. */
  lemma {:induction false} ApplyAllRegisters(agents: map<string, Agent>, entries: seq<ConfigEntry>, now: int)
    requires ApplyAll(agents, entries, now).failure.None?
    ensures forall i :: 0 <= i < |entries| && entries[i].enabled ==> entries[i].agentId in ApplyAll(agents, entries, now).agents
    decreases |entries|
  {
    if entries != [] {
      var init := entries[..|entries| - 1];
      ApplyAllClean(agents, entries, now, |entries| - 1);
      ApplyAllRegisters(agents, init, now);
      var p := ApplyAll(agents, init, now);
      AdmitEntryGrows(p, entries[|entries| - 1], Registration(entries[|entries| - 1], now));
      forall i | 0 <= i < |entries| - 1 && entries[i].enabled
        ensures entries[i].agentId in ApplyAll(agents, entries, now).agents
      {
        assert init[i] == entries[i];
      }
    }
  }

  /** An entry whose agent is already registered, or that is disabled, only moves a counter. */
  lemma AdmitEntryNoop(p: ApplyProgress, e: ConfigEntry, registration: Result<Agent, seq<string>>)
    requires e.enabled ==> e.agentId in p.agents
    ensures AdmitEntry(p, e, registration) ==
      if e.enabled then p.(skipped := p.skipped + 1) else p.(disabled := p.disabled + 1)
  {
  }

  /** `ApplyEntry` on a registered or disabled entry only counts it. */
  lemma ApplyEntryNoop(q: ApplyProgress, e: ConfigEntry, now: int)
    requires q.failure.None? && (e.enabled ==> e.agentId in q.agents)
    ensures ApplyEntry(q, e, now) ==
      if e.enabled then q.(skipped := q.skipped + 1) else q.(disabled := q.disabled + 1)
  {
    AdmitEntryNoop(q, e, Registration(e, now));
  }

  /** When every enabled entry is already registered, applying adds nothing and skips every enabled entry. */
  lemma {:induction false} ApplyAllNoop(agents: map<string, Agent>, entries: seq<ConfigEntry>, now: int)
    requires forall i :: 0 <= i < |entries| && entries[i].enabled ==> entries[i].agentId in agents
    ensures ApplyAll(agents, entries, now) ==
      ApplyProgress(agents, 0, EnabledCount(entries), |entries| - EnabledCount(entries), None)
    decreases |entries|
  {
    if entries != [] {
      var init := entries[..|entries| - 1];
      var e := entries[|entries| - 1];
      var q := ApplyAll(agents, init, now);
      assert q == ApplyProgress(agents, 0, EnabledCount(init), |init| - EnabledCount(init), None) by {
        assert forall i :: 0 <= i < |init| ==> init[i] == entries[i];
        ApplyAllNoop(agents, init, now);
      }
      assert ApplyEntry(q, e, now) == if e.enabled then q.(skipped := q.skipped + 1) else q.(disabled := q.disabled + 1) by {
        ApplyEntryNoop(q, e, now);
      }
      assert ApplyAll(agents, entries, now) == ApplyEntry(q, e, now);
    }
  }

  /** A second apply of the same configuration adds nothing and skips every enabled entry. */
  lemma ApplyTwice(agents: map<string, Agent>, entries: seq<ConfigEntry>, now: int, later: int)
    requires ApplyAll(agents, entries, now).failure.None?
    ensures var first := ApplyAll(agents, entries, now).agents;
      ApplyAll(first, entries, later) ==
        ApplyProgress(first, 0, EnabledCount(entries), |entries| - EnabledCount(entries), None)
  {
    ApplyAllRegisters(agents, entries, now);
    ApplyAllNoop(ApplyAll(agents, entries, now).agents, entries, later);
  }

  // ------------------------------------------------------------------
  // The reload diff
  // ------------------------------------------------------------------

  /** `{e.agent_id: e for e in entries}`: a later entry with the same id wins. */
  function EntryMap(entries: seq<ConfigEntry>): (m: map<string, ConfigEntry>)
    ensures forall id :: id in m ==> m[id].agentId == id
    ensures forall id :: id in m <==> exists i :: 0 <= i < |entries| && entries[i].agentId == id
    decreases |entries|
  {
    if entries == [] then map[]
    else
      var init := entries[..|entries| - 1];
      var last := entries[|entries| - 1];
      var m := EntryMap(init);
      assert forall i :: 0 <= i < |init| ==> init[i] == entries[i];
      m[last.agentId := last]
  }

  /** The keys of `EntryMap(entries)` in dict order: by first appearance. */
  function IdOrder(entries: seq<ConfigEntry>): (r: seq<string>)
    ensures Distinct(r)
    ensures forall id :: id in r <==> exists i :: 0 <= i < |entries| && entries[i].agentId == id
    decreases |entries|
  {
    if entries == [] then []
    else
      var init := entries[..|entries| - 1];
      var last := entries[|entries| - 1];
      var ids := IdOrder(init);
      assert forall i :: 0 <= i < |init| ==> init[i] == entries[i];
      if last.agentId in ids then ids else ids + [last.agentId]
  }

  /** Every id in dict order is a key of the dict, keyed by its own entry. */
  lemma IdOrderKeys(entries: seq<ConfigEntry>)
    ensures forall id :: id in IdOrder(entries) ==> id in EntryMap(entries) && EntryMap(entries)[id].agentId == id
  {
    forall id | id in IdOrder(entries)
      ensures id in EntryMap(entries)
    {
      var i :| 0 <= i < |entries| && entries[i].agentId == id;
    }
  }

  /** `m.get(id)` */
  function Lookup(m: map<string, Agent>, id: string): Option<Agent> {
    if id in m then Some(m[id]) else None
  }

  /** What one step does to its own agent, and how it moves the counters. */
  datatype Change = Change(after: Option<Agent>, added: nat, removed: nat, updated: nat, same: nat)

  /**
   * Build the registration, then `register(registration)` inside a try: a
   * registration that fails validation raises out, a present id only logs.
   */
  function RegisterOutcome(agentId: string, reg: Result<Agent, seq<string>>, current: Option<Agent>): Result<Change, LoaderError> {
    match reg
    case Err(errors) => Err(InvalidRegistration(agentId, errors))
    case Ok(a) => Ok(if current.Some? then Change(current, 0, 0, 0, 0) else Change(Some(a), 1, 0, 0, 0))
  }

  /**
   * The body of the first reload loop for one id of the new file: `n` is its
   * new entry, `o` its old one if any, `current` its registration now.
   * Building a registration that fails validation raises out of the reload.
   */
  function NewEntryChange(n: ConfigEntry, o: Option<ConfigEntry>, current: Option<Agent>, now: int): Result<Change, LoaderError> {
    if o.None? then
      if n.enabled then RegisterOutcome(n.agentId, Registration(n, now), current)
      else Ok(Change(current, 0, 0, 0, 0))
    else if !n.enabled && o.value.enabled then
      Ok(if current.Some? then Change(None, 0, 1, 0, 0) else Change(current, 0, 0, 0, 0))
    else if n.enabled && !o.value.enabled then RegisterOutcome(n.agentId, Registration(n, now), current)
    else if n != o.value && n.enabled then
      Ok(if current.Some? then Change(Some(current.value.(metadata := n.metadata)), 0, 0, 1, 0)
         else Change(current, 0, 0, 0, 0))
    else Ok(Change(current, 0, 0, 0, 1))
  }

  /** The body of the second loop: an id that left the file is unregistered if present. */
  function LeftChange(inNew: bool, current: Option<Agent>): Change {
    if !inNew && current.Some? then Change(None, 0, 1, 0, 0) else Change(current, 0, 0, 0, 0)
  }

  /** The state of the reload loops. */
  datatype ReloadProgress = ReloadProgress(agents: map<string, Agent>, added: nat, removed: nat, updated: nat,
                                           same: nat, failure: Option<LoaderError>)

  /** Sets or deletes one registration. */
  function Put(m: map<string, Agent>, id: string, v: Option<Agent>): (r: map<string, Agent>)
    ensures Lookup(r, id) == v
    ensures forall x :: x != id ==> Lookup(r, x) == Lookup(m, x)
  {
    if v.Some? then m[id := v.value] else m - {id}
  }

  function Record(p: ReloadProgress, id: string, c: Change): ReloadProgress {
    p.(agents := Put(p.agents, id, c.after), added := p.added + c.added, removed := p.removed + c.removed,
       updated := p.updated + c.updated, same := p.same + c.same)
  }

  function OldOf(oldMap: map<string, ConfigEntry>, id: string): Option<ConfigEntry> {
    if id in oldMap then Some(oldMap[id]) else None
  }

  function NewStep(p: ReloadProgress, id: string, oldMap: map<string, ConfigEntry>,
                   newMap: map<string, ConfigEntry>, now: int): ReloadProgress
    requires id in newMap
  {
    if p.failure.Some? then p
    else
      match NewEntryChange(newMap[id], OldOf(oldMap, id), Lookup(p.agents, id), now)
      case Err(e) => p.(failure := Some(e))
      case Ok(c) => Record(p, id, c)
  }

  /** The first loop, over the ids of the new file in dict order. */
  function NewSteps(p: ReloadProgress, ids: seq<string>, oldMap: map<string, ConfigEntry>,
                    newMap: map<string, ConfigEntry>, now: int): ReloadProgress
    requires forall id :: id in ids ==> id in newMap
    decreases |ids|
  {
    if ids == [] then p
    else NewStep(NewSteps(p, ids[..|ids| - 1], oldMap, newMap, now), ids[|ids| - 1], oldMap, newMap, now)
  }

  /** The second loop, over the ids of the old file in dict order. */
  function LeftSteps(p: ReloadProgress, ids: seq<string>, newMap: map<string, ConfigEntry>): ReloadProgress
    decreases |ids|
  {
    if ids == [] then p
    else
      var q := LeftSteps(p, ids[..|ids| - 1], newMap);
      var id := ids[|ids| - 1];
      if q.failure.Some? then q else Record(q, id, LeftChange(id in newMap, Lookup(q.agents, id)))
  }

  /** The whole diff of `reload` once a previous configuration exists. */
  function ReloadDiff(agents: map<string, Agent>, oldEntries: seq<ConfigEntry>, newEntries: seq<ConfigEntry>,
                      now: int): ReloadProgress
  {
    var oldMap := EntryMap(oldEntries);
    var newMap := EntryMap(newEntries);
    var p := NewSteps(ReloadProgress(agents, 0, 0, 0, 0, None), IdOrder(newEntries), oldMap, newMap, now);
    LeftSteps(p, IdOrder(oldEntries), newMap)
  }

  /**
   * Frame of the first loop: an id's registration ends up as its own step
   * left it, and every other registration is untouched.
   */
  lemma {:induction false} NewStepsAt(p: ReloadProgress, ids: seq<string>, oldMap: map<string, ConfigEntry>,
                                      newMap: map<string, ConfigEntry>, now: int, x: string)
    requires forall id :: id in ids ==> id in newMap
    requires Distinct(ids) && p.failure.None?
    requires NewSteps(p, ids, oldMap, newMap, now).failure.None?
    ensures x in ids ==> NewEntryChange(newMap[x], OldOf(oldMap, x), Lookup(p.agents, x), now).Ok?
    ensures Lookup(NewSteps(p, ids, oldMap, newMap, now).agents, x) ==
      if x in ids then NewEntryChange(newMap[x], OldOf(oldMap, x), Lookup(p.agents, x), now).value.after
      else Lookup(p.agents, x)
    decreases |ids|
  {
    if ids != [] {
      var init := ids[..|ids| - 1];
      var y := ids[|ids| - 1];
      var q := NewSteps(p, init, oldMap, newMap, now);
      assert q.failure.None?;
      NewStepsAt(p, init, oldMap, newMap, now, x);
      if x == y {
        assert x !in init;
      } else {
        assert x in ids <==> x in init;
      }
    }
  }

  /** After a failure in the first loop the remaining ids change nothing. */
  lemma {:induction false} NewStepsFailed(p: ReloadProgress, ids: seq<string>, oldMap: map<string, ConfigEntry>,
                                          newMap: map<string, ConfigEntry>, now: int, k: nat)
    requires forall id :: id in ids ==> id in newMap
    requires k <= |ids| && NewSteps(p, ids[..k], oldMap, newMap, now).failure.Some?
    ensures NewSteps(p, ids, oldMap, newMap, now) == NewSteps(p, ids[..k], oldMap, newMap, now)
    decreases |ids| - k
  {
    if k < |ids| {
      var pre := ids[..k + 1];
      assert pre[..|pre| - 1] == ids[..k] && pre[|pre| - 1] == ids[k];
      assert NewSteps(p, pre, oldMap, newMap, now)
        == NewStep(NewSteps(p, ids[..k], oldMap, newMap, now), ids[k], oldMap, newMap, now);
      NewStepsFailed(p, ids, oldMap, newMap, now, k + 1);
    } else {
      assert ids[..k] == ids;
    }
  }

  /** Frame of the second loop. */
  lemma {:induction false} LeftStepsAt(p: ReloadProgress, ids: seq<string>, newMap: map<string, ConfigEntry>, x: string)
    requires Distinct(ids) && p.failure.None?
    ensures LeftSteps(p, ids, newMap).failure.None?
    ensures Lookup(LeftSteps(p, ids, newMap).agents, x) ==
      if x in ids then LeftChange(x in newMap, Lookup(p.agents, x)).after else Lookup(p.agents, x)
    decreases |ids|
  {
    if ids != [] {
      var init := ids[..|ids| - 1];
      var y := ids[|ids| - 1];
      LeftStepsAt(p, init, newMap, x);
      if x == y {
        assert x !in init;
      } else {
        assert x in ids <==> x in init;
      }
    }
  }

  /**
   * What a clean reload does to each agent id: new and re-enabled enabled
   * entries end up registered; entries that became disabled or left the file
   * end up unregistered; changed enabled entries get exactly the new metadata;
   * unchanged entries and agents the files never mention are left alone.
   */
  lemma ReloadEffect(agents: map<string, Agent>, oldEntries: seq<ConfigEntry>, newEntries: seq<ConfigEntry>,
                     now: int, x: string)
    requires ReloadDiff(agents, oldEntries, newEntries, now).failure.None?
    ensures var r := ReloadDiff(agents, oldEntries, newEntries, now).agents;
      var oldMap := EntryMap(oldEntries);
      var newMap := EntryMap(newEntries);
      (x !in oldMap && x !in newMap ==> Lookup(r, x) == Lookup(agents, x))
      && (x in oldMap && x !in newMap ==> x !in r)
      && (x in newMap && x in oldMap && !newMap[x].enabled && oldMap[x].enabled ==> x !in r)
      && (x in newMap && newMap[x].enabled && (x !in oldMap || !oldMap[x].enabled) ==> x in r)
      && (x in newMap && x in oldMap && newMap[x] == oldMap[x] ==> Lookup(r, x) == Lookup(agents, x))
      && ((x in newMap && x in oldMap && newMap[x] != oldMap[x] && newMap[x].enabled && oldMap[x].enabled
           && x in agents) ==> x in r && r[x] == agents[x].(metadata := newMap[x].metadata))
  {
    var oldMap := EntryMap(oldEntries);
    var newMap := EntryMap(newEntries);
    var p0 := ReloadProgress(agents, 0, 0, 0, 0, None);
    var p := NewSteps(p0, IdOrder(newEntries), oldMap, newMap, now);
    if p.failure.Some? {
      LeftStepsFailed(p, IdOrder(oldEntries), newMap);
      assert false;
    }
    NewStepsAt(p0, IdOrder(newEntries), oldMap, newMap, now, x);
    LeftStepsAt(p, IdOrder(oldEntries), newMap, x);
  }

  /** A failure in the first loop skips the second. */
  lemma {:induction false} LeftStepsFailed(p: ReloadProgress, ids: seq<string>, newMap: map<string, ConfigEntry>)
    requires p.failure.Some?
    ensures LeftSteps(p, ids, newMap) == p
    decreases |ids|
  {
    if ids != [] {
      LeftStepsFailed(p, ids[..|ids| - 1], newMap);
    }
  }

  /** A step stores only a registration made for its own id. */
  lemma NewEntryChangeKeyed(id: string, n: ConfigEntry, o: Option<ConfigEntry>, current: Option<Agent>, now: int)
    requires n.agentId == id && (current.Some? ==> current.value.agentId == id)
    ensures var c := NewEntryChange(n, o, current, now);
      c.Ok? && c.value.after.Some? ==> c.value.after.value.agentId == id
  {
  }

  lemma RecordKeyed(p: ReloadProgress, id: string, c: Change)
    requires Keyed(p.agents) && (c.after.Some? ==> c.after.value.agentId == id)
    ensures Keyed(Record(p, id, c).agents)
  {
  }

  /** The first loop keeps every registration under its own id. */
  lemma {:induction false} NewStepsKeyed(p: ReloadProgress, ids: seq<string>, oldMap: map<string, ConfigEntry>,
                                         newMap: map<string, ConfigEntry>, now: int)
    requires forall id :: id in ids ==> id in newMap
    requires forall id :: id in newMap ==> newMap[id].agentId == id
    requires Keyed(p.agents)
    ensures Keyed(NewSteps(p, ids, oldMap, newMap, now).agents)
    decreases |ids|
  {
    if ids != [] {
      var q := NewSteps(p, ids[..|ids| - 1], oldMap, newMap, now);
      var id := ids[|ids| - 1];
      NewStepsKeyed(p, ids[..|ids| - 1], oldMap, newMap, now);
      if q.failure.None? {
        var c := NewEntryChange(newMap[id], OldOf(oldMap, id), Lookup(q.agents, id), now);
        NewEntryChangeKeyed(id, newMap[id], OldOf(oldMap, id), Lookup(q.agents, id), now);
        if c.Ok? {
          RecordKeyed(q, id, c.value);
        }
      }
    }
  }

  /** The second loop keeps every registration under its own id. */
  lemma {:induction false} LeftStepsKeyed(p: ReloadProgress, ids: seq<string>, newMap: map<string, ConfigEntry>)
    requires Keyed(p.agents)
    ensures Keyed(LeftSteps(p, ids, newMap).agents)
    decreases |ids|
  {
    if ids != [] {
      var q := LeftSteps(p, ids[..|ids| - 1], newMap);
      LeftStepsKeyed(p, ids[..|ids| - 1], newMap);
      var id := ids[|ids| - 1];
      if q.failure.None? {
        RecordKeyed(q, id, LeftChange(id in newMap, Lookup(q.agents, id)));
      }
    }
  }

  // ------------------------------------------------------------------
  // The loader
  // ------------------------------------------------------------------

  /** The summary `apply_to_registry` returns. */
  datatype ApplySummary = ApplySummary(added: nat, skipped: nat, disabled: nat, totalInConfig: nat, totalInRegistry: nat)

  /** The summary of a reload diff; `file_changed` is always True. */
  datatype ReloadSummary = ReloadSummary(added: nat, removed: nat, updated: nat, same: nat,
                                         totalInConfig: nat, totalInRegistry: nat)

  /** A first load only applies; later loads report the diff. */
  datatype ReloadOutcome = FirstApply(applied: ApplySummary) | Changes(diff: ReloadSummary)

  /** The index of the first entry with this id, or -1 when there is none. */
  function IndexOfAgent(entries: seq<ConfigEntry>, agentId: string): (r: int)
    ensures -1 <= r < |entries|
    ensures r == -1 <==> forall i :: 0 <= i < |entries| ==> entries[i].agentId != agentId
    ensures r >= 0 ==> entries[r].agentId == agentId && forall i :: 0 <= i < r ==> entries[i].agentId != agentId
    decreases |entries|
  {
    if entries == [] then -1
    else if entries[0].agentId == agentId then 0
    else
      var k := IndexOfAgent(entries[1..], agentId);
      assert forall i :: 1 <= i < |entries| ==> entries[i] == entries[1..][i - 1];
      if k == -1 then -1 else k + 1
  }

  /** Adding an entry and then removing its id gives back the entry and the list as it was. */
  lemma AddThenRemove(entries: seq<ConfigEntry>, e: ConfigEntry)
    requires forall i :: 0 <= i < |entries| ==> entries[i].agentId != e.agentId
    ensures var added := entries + [e];
      var k := IndexOfAgent(added, e.agentId);
      k == |entries| && added[k] == e && added[..k] + added[k + 1..] == entries
  {
    var added := entries + [e];
    assert added[|entries|] == e;
    assert added[..|entries|] == entries;
  }

  class AgentConfigLoader {
    const registry: AgentRegistry
    var current: Option<ConfigFile>

    ghost predicate Valid()
      reads this, registry
    {
      registry.Valid()
    }

    /** A new loader has no configuration loaded. */
    constructor(registry: AgentRegistry)
      requires registry.Valid()
      ensures Valid() && this.registry == registry && current.None?
    {
      this.registry := registry;
      current := None;
    }

    /**
     * `apply_to_registry()`: fails when nothing is loaded; otherwise walks the
     * entries, registering each enabled one that is missing. A registration
     * that fails validation ends the walk with the earlier ones kept.
     */
    method ApplyToRegistry(now: int) returns (r: Result<ApplySummary, LoaderError>)
      requires Valid()
      modifies registry
      ensures Valid()
      ensures current.None? ==> r == Err(NoConfigLoaded) && registry.agents == old(registry.agents)
      ensures current.Some? ==>
        var p := ApplyAll(old(registry.agents), current.value.agents, now);
        registry.agents == p.agents
        && (p.failure.Some? ==> r == Err(p.failure.value))
        && (p.failure.None? ==> r == Ok(ApplySummary(p.added, p.skipped, p.disabled,
                                                     |current.value.agents|, |p.agents.Keys|)))
    {
      if current.None? {
        return Err(NoConfigLoaded);
      }
      var entries := current.value.agents;
      var p := ApplyProgress(registry.agents, 0, 0, 0, None);
      for i := 0 to |entries|
        invariant registry.Valid() && p.agents == registry.agents && p.failure.None?
        invariant p == ApplyAll(old(registry.agents), entries[..i], now)
      {
        assert entries[..i + 1][..i] == entries[..i];
        p := ApplyOne(p, entries[i], Registration(entries[i], now));
        if p.failure.Some? {
          ApplyAllFailed(old(registry.agents), entries, now, i + 1);
          return Err(p.failure.value);
        }
      }
      assert entries[..|entries|] == entries;
      r := Ok(ApplySummary(p.added, p.skipped, p.disabled, |entries|, registry.AgentCount()));
    }

    /** The loop body of `apply_to_registry` for one entry. */
    method ApplyOne(p: ApplyProgress, entry: ConfigEntry, registration: Result<Agent, seq<string>>) returns (q: ApplyProgress)
      requires Valid() && p.agents == registry.agents && p.failure.None?
      requires registration.Ok? ==> registration.value.agentId == entry.agentId
      modifies registry
      ensures Valid()
      ensures q == AdmitEntry(p, entry, registration) && registry.agents == q.agents
    {
      if !entry.enabled {
        return p.(disabled := p.disabled + 1);
      }
      var existing := registry.Get(entry.agentId);
      if existing.Ok? {
        return p.(skipped := p.skipped + 1);
      }
      if registration.Err? {
        return p.(failure := Some(InvalidRegistration(entry.agentId, registration.error)));
      }
      var _ := registry.Register(registration.value);
      q := p.(agents := registry.agents, added := p.added + 1);
    }

    /**
     * `reload()`: the freshly read file becomes the current configuration;
     * on the first load it is applied, afterwards the diff against the
     * previous configuration is applied to the registry.
     */
    method Reload(loaded: Result<ConfigFile, string>, now: int) returns (r: Result<ReloadOutcome, LoaderError>)
      requires Valid()
      modifies this, registry
      ensures Valid()
      ensures loaded.Err? ==>
        (r == Err(LoadFailed(loaded.error)) && current == old(current) && registry.agents == old(registry.agents))
      ensures loaded.Ok? ==> current == Some(loaded.value)
      ensures loaded.Ok? && old(current).None? ==>
        var p := ApplyAll(old(registry.agents), loaded.value.agents, now);
        registry.agents == p.agents
        && (p.failure.Some? ==> r == Err(p.failure.value))
        && (p.failure.None? ==> r == Ok(FirstApply(ApplySummary(p.added, p.skipped, p.disabled,
                                                                |loaded.value.agents|, |p.agents.Keys|))))
      ensures loaded.Ok? && old(current).Some? ==>
        var d := ReloadDiff(old(registry.agents), old(current).value.agents, loaded.value.agents, now);
        registry.agents == d.agents
        && (d.failure.Some? ==> r == Err(d.failure.value))
        && (d.failure.None? ==> r == Ok(Changes(ReloadSummary(d.added, d.removed, d.updated, d.same,
                                                              |loaded.value.agents|, |d.agents.Keys|))))
    {
      if loaded.Err? {
        return Err(LoadFailed(loaded.error));
      }
      var previous := current;
      current := Some(loaded.value);
      if previous.None? {
        var applied := ApplyToRegistry(now);
        if applied.Err? {
          return Err(applied.error);
        }
        return Ok(FirstApply(applied.value));
      }
      var d := ApplyDiff(previous.value.agents, loaded.value.agents, now);
      if d.failure.Some? {
        return Err(d.failure.value);
      }
      r := Ok(Changes(ReloadSummary(d.added, d.removed, d.updated, d.same, |loaded.value.agents|,
                                    registry.AgentCount())));
    }

    /**
     * The body of the first reload loop for one id of the new file: register,
     * unregister, replace the metadata or leave alone, as the old and new
     * entries say. Registry errors are swallowed; a registration that fails
     * validation is reported and changes nothing.
     */
    method DiffEntry(agentId: string, oldMap: map<string, ConfigEntry>, newMap: map<string, ConfigEntry>, now: int)
      returns (c: Result<Change, LoaderError>)
      requires Valid() && agentId in newMap && newMap[agentId].agentId == agentId
      modifies registry
      ensures Valid()
      ensures c == NewEntryChange(newMap[agentId], OldOf(oldMap, agentId), Lookup(old(registry.agents), agentId), now)
      ensures c.Ok? ==> registry.agents == Put(old(registry.agents), agentId, c.value.after)
      ensures c.Err? ==> registry.agents == old(registry.agents)
    {
      var newEntry := newMap[agentId];
      if agentId !in oldMap {
        if newEntry.enabled {
          c := RegisterEntry(agentId, Registration(newEntry, now));
        } else {
          c := Ok(Change(Lookup(registry.agents, agentId), 0, 0, 0, 0));
        }
      } else {
        var oldEntry := oldMap[agentId];
        if !newEntry.enabled && oldEntry.enabled {
          var res := registry.Unregister(agentId);
          c := Ok(if res.Ok? then Change(None, 0, 1, 0, 0) else Change(None, 0, 0, 0, 0));
        } else if newEntry.enabled && !oldEntry.enabled {
          c := RegisterEntry(agentId, Registration(newEntry, now));
        } else if newEntry != oldEntry && newEntry.enabled {
          var res := registry.UpdateMetadata(agentId, newEntry.metadata, false);
          c := Ok(if res.Ok? then Change(Some(res.value), 0, 0, 1, 0) else Change(None, 0, 0, 0, 0));
        } else {
          c := Ok(Change(Lookup(registry.agents, agentId), 0, 0, 0, 1));
        }
      }
    }

    /**
     * Build the entry's registration and register it; a registration that
     * fails validation is reported, an id already registered only logs.
     */
    method RegisterEntry(agentId: string, registration: Result<Agent, seq<string>>) returns (c: Result<Change, LoaderError>)
      requires Valid() && (registration.Ok? ==> registration.value.agentId == agentId)
      modifies registry
      ensures Valid()
      ensures c == RegisterOutcome(agentId, registration, Lookup(old(registry.agents), agentId))
      ensures c.Ok? ==> registry.agents == Put(old(registry.agents), agentId, c.value.after)
      ensures c.Err? ==> registry.agents == old(registry.agents)
    {
      if registration.Err? {
        return Err(InvalidRegistration(agentId, registration.error));
      }
      var existing := Lookup(registry.agents, agentId);
      var res := registry.Register(registration.value);
      c := Ok(if res.Ok? then Change(Some(registration.value), 1, 0, 0, 0) else Change(existing, 0, 0, 0, 0));
    }

    /** The two loops of `reload` once a previous configuration exists. */
    method ApplyDiff(oldEntries: seq<ConfigEntry>, newEntries: seq<ConfigEntry>, now: int) returns (d: ReloadProgress)
      requires Valid()
      modifies registry
      ensures Valid()
      ensures d == ReloadDiff(old(registry.agents), oldEntries, newEntries, now) && registry.agents == d.agents
    {
      var oldMap := EntryMap(oldEntries);
      var newMap := EntryMap(newEntries);
      IdOrderKeys(newEntries);
      var p0 := ReloadProgress(registry.agents, 0, 0, 0, 0, None);
      var p := NewLoop(p0, IdOrder(newEntries), oldMap, newMap, now);
      if p.failure.Some? {
        LeftStepsFailed(p, IdOrder(oldEntries), newMap);
        return p;
      }
      d := LeftLoop(p, IdOrder(oldEntries), newMap);
    }

    /** The first loop of `reload`, over the ids of the new file. */
    method NewLoop(p0: ReloadProgress, ids: seq<string>, oldMap: map<string, ConfigEntry>,
                   newMap: map<string, ConfigEntry>, now: int) returns (p: ReloadProgress)
      requires Valid() && p0.agents == registry.agents && p0.failure.None?
      requires forall id :: id in ids ==> id in newMap && newMap[id].agentId == id
      modifies registry
      ensures Valid()
      ensures p == NewSteps(p0, ids, oldMap, newMap, now) && registry.agents == p.agents
    {
      p := p0;
      for i := 0 to |ids|
        invariant registry.Valid() && p.agents == registry.agents && p.failure.None?
        invariant p == NewSteps(p0, ids[..i], oldMap, newMap, now)
      {
        assert ids[..i + 1][..i] == ids[..i];
        p := NewStepOne(p, ids[i], oldMap, newMap, now);
        if p.failure.Some? {
          NewStepsFailed(p0, ids, oldMap, newMap, now, i + 1);
          return;
        }
      }
      assert ids[..|ids|] == ids;
    }

    /** The second loop of `reload`: unregister what left the file. */
    method LeftLoop(p0: ReloadProgress, ids: seq<string>, newMap: map<string, ConfigEntry>) returns (p: ReloadProgress)
      requires Valid() && p0.agents == registry.agents && p0.failure.None?
      modifies registry
      ensures Valid()
      ensures p == LeftSteps(p0, ids, newMap) && registry.agents == p.agents
    {
      p := p0;
      for i := 0 to |ids|
        invariant registry.Valid() && p.agents == registry.agents && p.failure.None?
        invariant p == LeftSteps(p0, ids[..i], newMap)
      {
        assert ids[..i + 1][..i] == ids[..i];
        p := LeftStepOne(p, ids[i], newMap);
      }
      assert ids[..|ids|] == ids;
    }

    /** The body of the second reload loop, with its counter. */
    method LeftStepOne(p: ReloadProgress, agentId: string, newMap: map<string, ConfigEntry>) returns (q: ReloadProgress)
      requires Valid() && p.agents == registry.agents && p.failure.None?
      modifies registry
      ensures Valid() && q.failure.None?
      ensures q == Record(p, agentId, LeftChange(agentId in newMap, Lookup(p.agents, agentId)))
      ensures registry.agents == q.agents
    {
      q := p;
      if agentId !in newMap {
        var res := registry.Unregister(agentId);
        if res.Ok? { q := q.(removed := q.removed + 1); }
        q := q.(agents := registry.agents);
      }
    }

    /** The body of the first reload loop, with its counters. */
    method NewStepOne(p: ReloadProgress, agentId: string, oldMap: map<string, ConfigEntry>,
                      newMap: map<string, ConfigEntry>, now: int) returns (q: ReloadProgress)
      requires Valid() && p.agents == registry.agents && p.failure.None?
      requires agentId in newMap && newMap[agentId].agentId == agentId
      modifies registry
      ensures Valid()
      ensures q == NewStep(p, agentId, oldMap, newMap, now) && registry.agents == q.agents
    {
      var c := DiffEntry(agentId, oldMap, newMap, now);
      if c.Err? {
        return p.(failure := Some(c.error));
      }
      q := Record(p, agentId, c.value);
    }

    /** `add_agent_to_config(entry)`: appended unless nothing is loaded or the id is already listed. */
    method AddAgentToConfig(entry: ConfigEntry) returns (r: Result<(), LoaderError>)
      modifies this
      ensures current.None? ==> r == Err(NoConfigLoaded)
      ensures old(current).Some? && (exists i :: 0 <= i < |old(current).value.agents| && old(current).value.agents[i].agentId == entry.agentId)
        ==> r == Err(AlreadyInConfig(entry.agentId)) && current == old(current)
      ensures r.Ok? <==> old(current).Some? && forall i :: 0 <= i < |old(current).value.agents| ==> old(current).value.agents[i].agentId != entry.agentId
      ensures r.Ok? ==> current == Some(old(current).value.(agents := old(current).value.agents + [entry]))
      ensures r.Err? ==> current == old(current)
    {
      if current.None? {
        return Err(NoConfigLoaded);
      }
      var config := current.value;
      if IndexOfAgent(config.agents, entry.agentId) != -1 {
        return Err(AlreadyInConfig(entry.agentId));
      }
      current := Some(config.(agents := config.agents + [entry]));
      r := Ok(());
    }

    /** `remove_agent_from_config(agent_id)`: removes and returns the first entry with that id. */
    method RemoveAgentFromConfig(agentId: string) returns (r: Result<ConfigEntry, LoaderError>)
      modifies this
      ensures old(current).None? ==> r == Err(NoConfigLoaded) && current == old(current)
      ensures old(current).Some? ==>
        var entries := old(current).value.agents;
        var k := IndexOfAgent(entries, agentId);
        (k == -1 ==> r == Err(NotInConfig(agentId)) && current == old(current))
        && (k >= 0 ==>
              (r == Ok(entries[k]) && current == Some(old(current).value.(agents := entries[..k] + entries[k + 1..]))))
    {
      if current.None? {
        return Err(NoConfigLoaded);
      }
      var config := current.value;
      var entries := config.agents;
      var i := 0;
      while i < |entries|
        invariant 0 <= i <= |entries|
        invariant forall j :: 0 <= j < i ==> entries[j].agentId != agentId
      {
        if entries[i].agentId == agentId {
          current := Some(config.(agents := entries[..i] + entries[i + 1..]));
          return Ok(entries[i]);
        }
        i := i + 1;
      }
      r := Err(NotInConfig(agentId));
    }

    /** `save_current()`: needs a loaded configuration, whose updated_at is restamped. */
    method SaveCurrent(stamp: string) returns (r: Result<(), LoaderError>)
      modifies this
      ensures old(current).None? <==> r.Err?
      ensures r.Err? ==> r.error == NoConfigLoaded && current == old(current)
      ensures r.Ok? ==> current == Some(old(current).value.(updatedAt := stamp))
    {
      if current.None? {
        return Err(NoConfigLoaded);
      }
      current := Some(current.value.(updatedAt := stamp));
      r := Ok(());
    }
  }
}
