/**
 * Agent health checking: a registration-based check per agent, a result
 * cache with a time-to-live, and a bounded per-agent history kept in the
 * insertion order of the agents, from which the oldest records are evicted
 * once the total bound is exceeded.
 */
module Health {
  import opened Common
  import Agents
  import opened Registry

  /** `HealthCheckResult` */
  datatype CheckResult = Healthy | Degraded | Unhealthy | Unreachable | Skipped

  /** `_RESULT_TO_STATUS`: the registry status a check result sets. */
  function ResultToStatus(result: CheckResult): (s: Agents.AgentStatus)
    ensures s == Agents.Online <==> result == Healthy
    ensures s == Agents.Degraded <==> result == Degraded
    ensures s == Agents.Offline <==> result == Unhealthy || result == Unreachable
    ensures s == Agents.Maintenance <==> result == Skipped
  {
    match result
    case Healthy => Agents.Online
    case Degraded => Agents.Degraded
    case Unhealthy => Agents.Offline
    case Unreachable => Agents.Offline
    case Skipped => Agents.Maintenance
  }

  /** After a check, the router may pick the agent exactly when it was HEALTHY or DEGRADED. */
  lemma CheckedAgentRoutable(a: Agents.Agent, result: CheckResult)
    ensures IsAvailable(a.(status := ResultToStatus(result))) <==> result == Healthy || result == Degraded
  {
  }

  /** `HealthCheckRecord.details`, kept as its parts rather than formatted text. */
  datatype Detail =
    | EndpointDeclared(url: string)            // the MCP endpoint cannot be verified yet
    | NoCapabilities                           // "Agent has no capabilities declared."
    | RegistrationPassed(capabilities: nat)    // "Registration check passed. N capabilities declared."

  /** `HealthCheckRecord`, without the measured response time. */
  datatype HealthRecord = HealthRecord(agentId: string, result: CheckResult, timestamp: int, details: Detail)

  /** Python truthiness of `mcp_server_url`. */
  predicate HasEndpoint(a: Agents.Agent) {
    a.mcpServerUrl.Some? && a.mcpServerUrl.value != []
  }

  /**
   * `_perform_check(agent)`: DEGRADED when the agent declares an MCP endpoint,
   * else UNHEALTHY without capabilities and HEALTHY with some.
   */
  function PerformCheck(a: Agents.Agent, now: int): (r: HealthRecord)
    ensures r.agentId == a.agentId && r.timestamp == now
    ensures r.result == Degraded <==> HasEndpoint(a)
    ensures r.result == Unhealthy <==> !HasEndpoint(a) && a.capabilities == []
    ensures r.result == Healthy <==> !HasEndpoint(a) && a.capabilities != []
    ensures r.result == Healthy ==> r.details == RegistrationPassed(|a.capabilities|)
  {
    if HasEndpoint(a) then HealthRecord(a.agentId, Degraded, now, EndpointDeclared(a.mcpServerUrl.value))
    else if a.capabilities == [] then HealthRecord(a.agentId, Unhealthy, now, NoCapabilities)
    else HealthRecord(a.agentId, Healthy, now, RegistrationPassed(|a.capabilities|))
  }

  /** A registration-based check never reports UNREACHABLE or SKIPPED, so never MAINTENANCE. */
  lemma PerformCheckNeverMaintenance(a: Agents.Agent, now: int)
    ensures var r := PerformCheck(a, now);
      r.result != Unreachable && r.result != Skipped && ResultToStatus(r.result) != Agents.Maintenance
  {
  }

  // ------------------------------------------------------------------
  // The history: agents in dict insertion order, each with its records
  // ------------------------------------------------------------------

  /** One entry of `_history`. */
  datatype AgentHistory = AgentHistory(agentId: string, records: seq<HealthRecord>)

  predicate DistinctIds(h: seq<AgentHistory>) {
    forall i, j :: 0 <= i < j < |h| ==> h[i].agentId != h[j].agentId
  }

  /** `_history.get(agent_id, [])` */
  function Lookup(h: seq<AgentHistory>, agentId: string): (r: seq<HealthRecord>)
    ensures r != [] ==> exists i :: 0 <= i < |h| && h[i].agentId == agentId && h[i].records == r
  {
    if h == [] then []
    else if h[0].agentId == agentId then h[0].records
    else Lookup(h[1..], agentId)
  }

  /** Where `agent_id` sits in the dict, if present. */
  function IndexOf(h: seq<AgentHistory>, agentId: string): (r: Option<nat>)
    ensures r.Some? ==> r.value < |h| && h[r.value].agentId == agentId
    ensures r.None? ==> forall i :: 0 <= i < |h| ==> h[i].agentId != agentId
  {
    if h == [] then None
    else if h[0].agentId == agentId then Some(0)
    else
      var rest := IndexOf(h[1..], agentId);
      if rest.Some? then Some(rest.value + 1) else None
  }

  /** `sum(len(recs) for recs in self._history.values())` */
  function Total(h: seq<AgentHistory>): nat {
    if h == [] then 0 else Total(h[..|h| - 1]) + |h[|h| - 1].records|
  }

  /** The most records any agent keeps: `max_history_per_agent`, or none when it is not positive. */
  function Cap(limit: int): nat {
    if limit > 0 then limit else 0
  }

  /** The per-agent trim: the newest `max_history_per_agent` records (`recs[excess:]`). */
  function Trim(records: seq<HealthRecord>, maxPerAgent: int): (r: seq<HealthRecord>)
    ensures |r| <= Cap(maxPerAgent) || r == records
    ensures |records| <= maxPerAgent ==> r == records
    ensures |records| > maxPerAgent ==> |r| == Cap(maxPerAgent)
    ensures r == records[|records| - |r|..]
  {
    if |records| > maxPerAgent then records[|records| - Cap(maxPerAgent)..] else records
  }

  /** The append and per-agent trim of `_append_history`, before any eviction. */
  function AddRecord(h: seq<AgentHistory>, record: HealthRecord, maxPerAgent: int): (r: seq<AgentHistory>)
    requires DistinctIds(h)
    ensures DistinctIds(r)
  {
    var i := IndexOf(h, record.agentId);
    if i.Some? then
      var e := AgentHistory(record.agentId, Trim(h[i.value].records + [record], maxPerAgent));
      ReplaceAt(h, i.value, e);
      h[i.value := e]
    else
      var e := AgentHistory(record.agentId, Trim([record], maxPerAgent));
      AppendNew(h, e);
      h + [e]
  }

  /** After the append, the agent's records are its old ones plus the new record, trimmed. */
  lemma AddRecordLookup(h: seq<AgentHistory>, record: HealthRecord, maxPerAgent: int)
    requires DistinctIds(h)
    ensures Lookup(AddRecord(h, record, maxPerAgent), record.agentId) == Trim(Lookup(h, record.agentId) + [record], maxPerAgent)
  {
    var i := IndexOf(h, record.agentId);
    if i.Some? {
      LookupAt(h, i.value);
      var e := AgentHistory(record.agentId, Trim(h[i.value].records + [record], maxPerAgent));
      ReplaceAt(h, i.value, e);
      assert AddRecord(h, record, maxPerAgent) == h[i.value := e];
    } else {
      LookupAbsent(h, record.agentId);
      assert [] + [record] == [record];
      var e := AgentHistory(record.agentId, Trim([record], maxPerAgent));
      AppendNew(h, e);
      assert AddRecord(h, record, maxPerAgent) == h + [e];
    }
  }

  /**
   * `self._history.setdefault(agent_id, []).append(record)` followed by the
   * trim to the newest `max_history_per_agent`, on the dict's entries.
   */
  method AppendTrimmed(h: seq<AgentHistory>, record: HealthRecord, maxPerAgent: int) returns (r: seq<AgentHistory>)
    requires DistinctIds(h)
    ensures r == AddRecord(h, record, maxPerAgent)
  {
    var i := IndexOf(h, record.agentId);
    var k: nat;
    r := h;
    if i.None? {
      r := r + [AgentHistory(record.agentId, [])];
      k := |r| - 1;
    } else {
      k := i.value;
    }
    var recs := r[k].records + [record];
    ghost var appended := recs;
    if |recs| > maxPerAgent {
      var excess := |recs| - maxPerAgent;
      recs := if excess <= |recs| then recs[excess..] else [];
    }
    assert recs == Trim(appended, maxPerAgent);
    r := r[k := AgentHistory(record.agentId, recs)];
    if i.None? {
      assert appended == [record];
      assert r == h + [AgentHistory(record.agentId, Trim([record], maxPerAgent))];
    } else {
      assert r == h[k := AgentHistory(record.agentId, Trim(h[k].records + [record], maxPerAgent))];
    }
  }

  /** Replacing an agent's entry in place keeps the ids distinct and is what a lookup then finds. */
  lemma ReplaceAt(h: seq<AgentHistory>, i: nat, e: AgentHistory)
    requires DistinctIds(h) && i < |h| && e.agentId == h[i].agentId
    ensures DistinctIds(h[i := e]) && Lookup(h[i := e], e.agentId) == e.records
  {
    LookupAt(h[i := e], i);
  }

  /** Adding an entry for a new agent at the end keeps the ids distinct and is what a lookup then finds. */
  lemma AppendNew(h: seq<AgentHistory>, e: AgentHistory)
    requires DistinctIds(h) && forall i :: 0 <= i < |h| ==> h[i].agentId != e.agentId
    ensures DistinctIds(h + [e]) && Lookup(h + [e], e.agentId) == e.records
  {
    LookupAt(h + [e], |h|);
  }

  /** Looking up the id stored at a position of a dict with distinct keys finds that entry. */
  lemma {:induction false} LookupAt(h: seq<AgentHistory>, i: nat)
    requires DistinctIds(h) && i < |h|
    ensures Lookup(h, h[i].agentId) == h[i].records
    decreases i
  {
    if i > 0 {
      LookupAt(h[1..], i - 1);
    }
  }

  lemma {:induction false} LookupAbsent(h: seq<AgentHistory>, agentId: string)
    requires forall i :: 0 <= i < |h| ==> h[i].agentId != agentId
    ensures Lookup(h, agentId) == []
    decreases |h|
  {
    if h != [] {
      LookupAbsent(h[1..], agentId);
    }
  }

  /** Appending a record leaves every other agent's records as they were. */
  lemma AddRecordOthers(h: seq<AgentHistory>, record: HealthRecord, maxPerAgent: int, other: string)
    requires DistinctIds(h) && other != record.agentId
    ensures Lookup(AddRecord(h, record, maxPerAgent), other) == Lookup(h, other)
  {
    var i := IndexOf(h, record.agentId);
    if i.Some? {
      var e := AgentHistory(record.agentId, Trim(h[i.value].records + [record], maxPerAgent));
      assert AddRecord(h, record, maxPerAgent) == h[i.value := e];
      LookupReplaceOther(h, i.value, e, other);
    } else {
      var e := AgentHistory(record.agentId, Trim([record], maxPerAgent));
      assert AddRecord(h, record, maxPerAgent) == h + [e];
      LookupAppendOther(h, e, other);
    }
  }

  /** Replacing the entry of one agent does not change what a lookup of another finds. */
  lemma {:induction false} LookupReplaceOther(h: seq<AgentHistory>, i: nat, e: AgentHistory, other: string)
    requires i < |h| && e.agentId == h[i].agentId && other != e.agentId
    ensures Lookup(h[i := e], other) == Lookup(h, other)
    decreases i
  {
    if i > 0 {
      LookupReplaceOther(h[1..], i - 1, e, other);
      assert h[i := e][1..] == h[1..][i - 1 := e];
    }
  }

  /** Adding an entry for one agent at the end does not change what a lookup of another finds. */
  lemma {:induction false} LookupAppendOther(h: seq<AgentHistory>, e: AgentHistory, other: string)
    requires other != e.agentId
    ensures Lookup(h + [e], other) == Lookup(h, other)
    decreases |h|
  {
    if h != [] {
      LookupAppendOther(h[1..], e, other);
      assert (h + [e])[1..] == h[1..] + [e];
    }
  }

  /**
   * The scan of the eviction loop: among the agents with records, the one
   * whose first record is oldest, the earliest in the dict on a tie.
   */
  function Oldest(h: seq<AgentHistory>): (r: Option<nat>)
    ensures r.Some? ==> r.value < |h| && h[r.value].records != []
  {
    if h == [] then None
    else
      var best := Oldest(h[..|h| - 1]);
      var last := |h| - 1;
      if h[last].records != []
         && (best.None? || h[last].records[0].timestamp < h[best.value].records[0].timestamp)
      then Some(last)
      else best
  }

  /**
   * The scan finds a record exactly when there is one; the first record it
   * picks is no newer than any other agent's, and strictly older than those
   * of the agents before it.
   */
  lemma {:induction false} OldestSpec(h: seq<AgentHistory>)
    ensures Oldest(h).None? <==> forall j :: 0 <= j < |h| ==> h[j].records == []
    ensures var r := Oldest(h);
      r.Some? ==> forall j :: 0 <= j < |h| && h[j].records != [] ==>
        h[r.value].records[0].timestamp <= h[j].records[0].timestamp
        && (j < r.value ==> h[r.value].records[0].timestamp < h[j].records[0].timestamp)
    decreases |h|
  {
    if h != [] {
      var init := h[..|h| - 1];
      OldestSpec(init);
      assert forall j :: 0 <= j < |init| ==> init[j] == h[j];
    }
  }

  /**
   * One turn of the eviction loop: drop the oldest first record; an agent
   * left without records leaves the dict. An oldest agent whose id is empty
   * is not touched (`if oldest_agent and ...`).
   */
  function EvictOne(h: seq<AgentHistory>): seq<AgentHistory> {
    var o := Oldest(h);
    if o.None? || h[o.value].agentId == [] then h
    else if |h[o.value].records| == 1 then h[..o.value] + h[o.value + 1..]
    else h[o.value := AgentHistory(h[o.value].agentId, h[o.value].records[1..])]
  }

  /** `n` turns of the eviction loop. */
  function Evict(h: seq<AgentHistory>, n: nat): seq<AgentHistory> {
    if n == 0 then h else EvictOne(Evict(h, n - 1))
  }

  /** `_append_history(record)`: append, trim the agent, then evict down to the total bound. */
  function AppendHistory(h: seq<AgentHistory>, record: HealthRecord, maxPerAgent: int, maxTotal: int)
    : seq<AgentHistory>
    requires DistinctIds(h)
  {
    var added := AddRecord(h, record, maxPerAgent);
    Evict(added, Excess(Total(added), maxTotal))
  }

  /** How many turns the `while total > max_total_history` loop takes. */
  function Excess(total: nat, maxTotal: int): nat {
    if total > maxTotal then total - maxTotal else 0
  }

  // ---- what the history operations keep ----

  predicate NoEmptyIds(h: seq<AgentHistory>) {
    forall i :: 0 <= i < |h| ==> h[i].agentId != []
  }

  /** Every agent keeps at most `Cap(max_history_per_agent)` records. */
  predicate PerAgentBounded(h: seq<AgentHistory>, maxPerAgent: int) {
    forall i :: 0 <= i < |h| ==> |h[i].records| <= Cap(maxPerAgent)
  }

  lemma {:induction false} TotalAppend(a: seq<AgentHistory>, b: seq<AgentHistory>)
    ensures Total(a + b) == Total(a) + Total(b)
    decreases |b|
  {
    if b == [] {
      assert a + b == a;
    } else {
      var b0 := b[..|b| - 1];
      TotalAppend(a, b0);
      assert (a + b)[..|a + b| - 1] == a + b0;
    }
  }

  lemma TotalSnoc(h: seq<AgentHistory>, e: AgentHistory)
    ensures Total(h + [e]) == Total(h) + |e.records|
  {
    assert (h + [e])[..|h|] == h;
  }

  lemma TotalSingle(e: AgentHistory)
    ensures Total([e]) == |e.records|
  {
    assert [e][..0] == [];
  }

  lemma TotalSplit(h: seq<AgentHistory>, i: nat)
    requires i < |h|
    ensures Total(h) == Total(h[..i]) + |h[i].records| + Total(h[i + 1..])
  {
    assert h == h[..i] + [h[i]] + h[i + 1..];
    TotalAppend(h[..i] + [h[i]], h[i + 1..]);
    TotalAppend(h[..i], [h[i]]);
    TotalSingle(h[i]);
  }

  lemma TotalUpdate(h: seq<AgentHistory>, i: nat, e: AgentHistory)
    requires i < |h|
    ensures Total(h[i := e]) == Total(h) - |h[i].records| + |e.records|
  {
    var g := h[i := e];
    TotalSplit(h, i);
    TotalSplit(g, i);
    assert g[..i] == h[..i] && g[i + 1..] == h[i + 1..];
  }

  /** While records remain and no agent id is empty, each eviction removes exactly one. */
  lemma EvictOneTotal(h: seq<AgentHistory>)
    requires NoEmptyIds(h)
    ensures Total(h) > 0 ==> Total(EvictOne(h)) == Total(h) - 1
    ensures Total(h) == 0 ==> EvictOne(h) == h
  {
    OldestSpec(h);
    var o := Oldest(h);
    if o.None? {
      TotalZero(h);
    } else {
      var k := o.value;
      TotalSplit(h, k);
      if |h[k].records| == 1 {
        TotalAppend(h[..k], h[k + 1..]);
      } else {
        TotalUpdate(h, k, AgentHistory(h[k].agentId, h[k].records[1..]));
      }
    }
  }

  lemma {:induction false} TotalZero(h: seq<AgentHistory>)
    ensures Total(h) == 0 <==> forall j :: 0 <= j < |h| ==> h[j].records == []
    decreases |h|
  {
    if h != [] {
      var init := h[..|h| - 1];
      TotalZero(init);
      assert forall j :: 0 <= j < |init| ==> init[j] == h[j];
    }
  }

  /** Eviction keeps ids distinct and non-empty and never lengthens an agent's records. */
  lemma EvictOneKeeps(h: seq<AgentHistory>, maxPerAgent: int)
    ensures DistinctIds(h) ==> DistinctIds(EvictOne(h))
    ensures NoEmptyIds(h) ==> NoEmptyIds(EvictOne(h))
    ensures PerAgentBounded(h, maxPerAgent) ==> PerAgentBounded(EvictOne(h), maxPerAgent)
  {
    var o := Oldest(h);
    if o.Some? && h[o.value].agentId != [] {
      if |h[o.value].records| == 1 {
        DropEntryKeeps(h, o.value, maxPerAgent);
      } else {
        DropRecordKeeps(h, o.value, maxPerAgent);
      }
    }
  }

  /** The entry of an agent whose last record goes is deleted: the other entries keep their invariants. */
  lemma DropEntryKeeps(h: seq<AgentHistory>, k: nat, maxPerAgent: int)
    requires k < |h|
    ensures var g := h[..k] + h[k + 1..];
      (DistinctIds(h) ==> DistinctIds(g))
      && (NoEmptyIds(h) ==> NoEmptyIds(g))
      && (PerAgentBounded(h, maxPerAgent) ==> PerAgentBounded(g, maxPerAgent))
  {
    var g := h[..k] + h[k + 1..];
    assert forall j :: 0 <= j < |g| ==> g[j] == (if j < k then h[j] else h[j + 1]);
  }

  /** Dropping the oldest record of an agent keeps its id and shortens its records. */
  lemma DropRecordKeeps(h: seq<AgentHistory>, k: nat, maxPerAgent: int)
    requires k < |h| && h[k].records != []
    ensures var g := h[k := AgentHistory(h[k].agentId, h[k].records[1..])];
      (DistinctIds(h) ==> DistinctIds(g))
      && (NoEmptyIds(h) ==> NoEmptyIds(g))
      && (PerAgentBounded(h, maxPerAgent) ==> PerAgentBounded(g, maxPerAgent))
  {
  }

  lemma {:induction false} EvictKeeps(h: seq<AgentHistory>, n: nat, maxPerAgent: int)
    requires DistinctIds(h) && PerAgentBounded(h, maxPerAgent)
    ensures DistinctIds(Evict(h, n)) && PerAgentBounded(Evict(h, n), maxPerAgent)
    decreases n
  {
    if n > 0 {
      EvictKeeps(h, n - 1, maxPerAgent);
      EvictOneKeeps(Evict(h, n - 1), maxPerAgent);
    }
  }

  /** `n` evictions remove `n` records, or all there are. */
  lemma {:induction false} EvictTotal(h: seq<AgentHistory>, n: nat)
    requires NoEmptyIds(h)
    ensures NoEmptyIds(Evict(h, n))
    ensures Total(Evict(h, n)) == if n <= Total(h) then Total(h) - n else 0
    decreases n
  {
    if n > 0 {
      EvictTotal(h, n - 1);
      EvictOneKeeps(Evict(h, n - 1), 0);
      EvictOneTotal(Evict(h, n - 1));
    }
  }

  /** Appending keeps every agent within its bound and adds exactly one record before trimming. */
  lemma AddRecordKeeps(h: seq<AgentHistory>, record: HealthRecord, maxPerAgent: int)
    requires DistinctIds(h) && PerAgentBounded(h, maxPerAgent)
    ensures var r := AddRecord(h, record, maxPerAgent);
      PerAgentBounded(r, maxPerAgent)
      && (NoEmptyIds(h) && record.agentId != [] ==> NoEmptyIds(r))
      && Total(r) <= Total(h) + 1
  {
    var i := IndexOf(h, record.agentId);
    if i.Some? {
      var e := AgentHistory(record.agentId, Trim(h[i.value].records + [record], maxPerAgent));
      assert AddRecord(h, record, maxPerAgent) == h[i.value := e];
      ReplaceKeeps(h, i.value, record, maxPerAgent);
    } else {
      var e := AgentHistory(record.agentId, Trim([record], maxPerAgent));
      assert AddRecord(h, record, maxPerAgent) == h + [e];
      assert |e.records| <= Cap(maxPerAgent) && |e.records| <= 1 by {
        TrimAppendBounded([], record, maxPerAgent);
        assert [] + [record] == [record];
      }
      AppendEntryKeeps(h, e, maxPerAgent);
      TotalSnoc(h, e);
    }
  }

  /** The first branch of `AddRecordKeeps`: the agent already has an entry, which is replaced. */
  lemma ReplaceKeeps(h: seq<AgentHistory>, i: nat, record: HealthRecord, maxPerAgent: int)
    requires PerAgentBounded(h, maxPerAgent) && i < |h| && h[i].agentId == record.agentId
    ensures var r := h[i := AgentHistory(record.agentId, Trim(h[i].records + [record], maxPerAgent))];
      PerAgentBounded(r, maxPerAgent)
      && (NoEmptyIds(h) ==> NoEmptyIds(r))
      && Total(r) <= Total(h) + 1
  {
    var e := AgentHistory(record.agentId, Trim(h[i].records + [record], maxPerAgent));
    assert |e.records| <= Cap(maxPerAgent) && |e.records| <= |h[i].records| + 1 by {
      TrimAppendBounded(h[i].records, record, maxPerAgent);
    }
    EntryKeeps(h, i, e, maxPerAgent);
    TotalUpdate(h, i, e);
  }

  /** Trimming after appending one record keeps a list within the per-agent bound and grows it by at most one. */
  lemma TrimAppendBounded(records: seq<HealthRecord>, record: HealthRecord, maxPerAgent: int)
    requires |records| <= Cap(maxPerAgent)
    ensures |Trim(records + [record], maxPerAgent)| <= Cap(maxPerAgent)
    ensures |Trim(records + [record], maxPerAgent)| <= |records| + 1
  {
  }

  /** Adding a bounded entry with a non-empty id at the end keeps both invariants. */
  lemma AppendEntryKeeps(h: seq<AgentHistory>, e: AgentHistory, maxPerAgent: int)
    requires PerAgentBounded(h, maxPerAgent) && |e.records| <= Cap(maxPerAgent)
    ensures PerAgentBounded(h + [e], maxPerAgent)
    ensures NoEmptyIds(h) && e.agentId != [] ==> NoEmptyIds(h + [e])
  {
  }

  /** Putting a bounded entry with a non-empty id at a position keeps both invariants of the others. */
  lemma EntryKeeps(h: seq<AgentHistory>, i: nat, e: AgentHistory, maxPerAgent: int)
    requires i < |h| && |e.records| <= Cap(maxPerAgent)
    requires forall j :: 0 <= j < |h| && j != i ==> |h[j].records| <= Cap(maxPerAgent)
    ensures PerAgentBounded(h[i := e], maxPerAgent)
    ensures (forall j :: 0 <= j < |h| && j != i ==> h[j].agentId != []) && e.agentId != [] ==> NoEmptyIds(h[i := e])
  {
  }

  /**
   * The two bounds of `_append_history`: no agent keeps more than
   * `max_history_per_agent` records and the total never exceeds
   * `max_total_history` (both read as 0 when not positive), provided no
   * agent id is empty, which the agent_id validator guarantees.
   */
  lemma AppendHistoryBounded(h: seq<AgentHistory>, record: HealthRecord, maxPerAgent: int, maxTotal: int)
    requires DistinctIds(h) && NoEmptyIds(h) && PerAgentBounded(h, maxPerAgent) && record.agentId != []
    ensures var r := AppendHistory(h, record, maxPerAgent, maxTotal);
      DistinctIds(r) && NoEmptyIds(r) && PerAgentBounded(r, maxPerAgent)
      && Total(r) <= Cap(maxTotal) && Total(r) <= Total(h) + 1
  {
    AddRecordKeeps(h, record, maxPerAgent);
    var added := AddRecord(h, record, maxPerAgent);
    EvictKeeps(added, Excess(Total(added), maxTotal), maxPerAgent);
    EvictTotal(added, Excess(Total(added), maxTotal));
  }

  /** Below the total bound nothing is evicted: the agent's list is its old one plus the record, trimmed. */
  lemma AppendHistoryNoEviction(h: seq<AgentHistory>, record: HealthRecord, maxPerAgent: int, maxTotal: int)
    requires DistinctIds(h) && PerAgentBounded(h, maxPerAgent) && Total(h) < maxTotal
    ensures var r := AppendHistory(h, record, maxPerAgent, maxTotal);
      Lookup(r, record.agentId) == Trim(Lookup(h, record.agentId) + [record], maxPerAgent)
      && forall other :: other != record.agentId ==> Lookup(r, other) == Lookup(h, other)
  {
    AddRecordKeeps(h, record, maxPerAgent);
    AddRecordLookup(h, record, maxPerAgent);
    var added := AddRecord(h, record, maxPerAgent);
    assert Excess(Total(added), maxTotal) == 0;
    forall other | other != record.agentId
      ensures Lookup(AppendHistory(h, record, maxPerAgent, maxTotal), other) == Lookup(h, other)
    {
      AddRecordOthers(h, record, maxPerAgent, other);
    }
  }

  /** The scan over the agents in `_append_history`'s eviction loop. */
  method FindOldest(h: seq<AgentHistory>) returns (r: Option<nat>)
    ensures r == Oldest(h)
  {
    r := None;
    var i := 0;
    while i < |h|
      invariant 0 <= i <= |h|
      invariant r == Oldest(h[..i])
    {
      assert h[..i + 1][..i] == h[..i];
      var recs := h[i].records;
      if recs != [] && (r.None? || recs[0].timestamp < h[r.value].records[0].timestamp) {
        r := Some(i);
      }
      i := i + 1;
    }
    assert h[..i] == h;
  }

  /** One turn of the eviction loop: drop the oldest first record across all agents. */
  method EvictOldest(h: seq<AgentHistory>) returns (g: seq<AgentHistory>)
    ensures g == EvictOne(h)
  {
    g := h;
    var oldest := FindOldest(h);
    if oldest.Some? && h[oldest.value].agentId != [] && h[oldest.value].records != [] {
      var o := oldest.value;
      var rest := h[o].records[1..];
      if rest == [] {
        g := h[..o] + h[o + 1..];
      } else {
        g := h[o := AgentHistory(h[o].agentId, rest)];
      }
    }
  }

  /** The `while total > max_total_history` loop of `_append_history`. */
  method EvictOverflow(added: seq<AgentHistory>, maxTotal: int) returns (h: seq<AgentHistory>)
    ensures h == Evict(added, Excess(Total(added), maxTotal))
  {
    h := added;
    var total := Total(h);
    var removed: nat := 0;
    while total > maxTotal
      invariant total == Total(added) - removed
      invariant removed == 0 || total >= maxTotal
      invariant h == Evict(added, removed)
      decreases total - maxTotal
    {
      h := EvictOldest(h);
      removed := removed + 1;
      total := total - 1;
    }
  }

  // ------------------------------------------------------------------
  // The checker
  // ------------------------------------------------------------------

  /** `CachedCheckResult`: a record and the monotonic time it was cached at. */
  datatype Cached = Cached(record: HealthRecord, cachedAt: int)

  class HealthChecker {
    const registry: AgentRegistry
    const cacheTtl: int
    const maxHistoryPerAgent: int
    const maxTotalHistory: int
    var cache: map<string, Cached>
    var history: seq<AgentHistory>

    ghost predicate Valid()
      reads this, registry
    {
      registry.Valid() && DistinctIds(history) && PerAgentBounded(history, maxHistoryPerAgent)
    }

    /**
     * `AgentHealthChecker(registry, persistence, config)` with an empty
     * history (loading a saved history is not part of this model).
     */
    constructor(registry: AgentRegistry, cacheTtl: int, maxHistoryPerAgent: int, maxTotalHistory: int)
      requires registry.Valid()
      ensures Valid()
      ensures this.registry == registry && this.cacheTtl == cacheTtl
      ensures this.maxHistoryPerAgent == maxHistoryPerAgent && this.maxTotalHistory == maxTotalHistory
      ensures cache == map[] && history == []
    {
      this.registry := registry;
      this.cacheTtl := cacheTtl;
      this.maxHistoryPerAgent := maxHistoryPerAgent;
      this.maxTotalHistory := maxTotalHistory;
      cache := map[];
      history := [];
    }

    /** `_is_cache_valid(agent_id)`: cached, and younger than the TTL at monotonic time `clock`. */
    predicate IsCacheValid(agentId: string, clock: int)
      reads this
    {
      agentId in cache && clock - cache[agentId].cachedAt < cacheTtl
    }

    /** The first half of `_append_history`: append to the agent's list, then trim it. */
    method AppendAndTrim(record: HealthRecord)
      requires DistinctIds(history)
      modifies this
      ensures history == AddRecord(old(history), record, maxHistoryPerAgent)
      ensures cache == old(cache)
    {
      history := AppendTrimmed(history, record, maxHistoryPerAgent);
    }

    /**
     * `_append_history(record)`: append to the agent's list (a new agent goes
     * last), keep its newest `max_history_per_agent`, then evict oldest first
     * records while the total exceeds `max_total_history`.
     */
    method AddToHistory(record: HealthRecord)
      requires DistinctIds(history) && PerAgentBounded(history, maxHistoryPerAgent)
      modifies this
      ensures DistinctIds(history) && PerAgentBounded(history, maxHistoryPerAgent)
      ensures history == AppendHistory(old(history), record, maxHistoryPerAgent, maxTotalHistory)
      ensures cache == old(cache)
    {
      AddRecordKeeps(history, record, maxHistoryPerAgent);
      AppendAndTrim(record);
      EvictKeeps(history, Excess(Total(history), maxTotalHistory), maxHistoryPerAgent);
      history := EvictOverflow(history, maxTotalHistory);
    }

    /**
     * `check_agent(agent_id, force)` at wall-clock time `now` and monotonic
     * time `clock`: a valid cached record unless forced; otherwise a fresh
     * check of the registered agent, which is cached, sets the agent's
     * registry status and health-check time, and is appended to the history.
     */
    method CheckAgent(agentId: string, force: bool, now: int, clock: int) returns (r: Result<HealthRecord, RegistryError>)
      requires Valid()
      modifies this, registry
      ensures Valid()
      ensures !force && old(IsCacheValid(agentId, clock)) ==>
        r == Ok(old(cache[agentId].record)) && cache == old(cache) && history == old(history)
        && registry.agents == old(registry.agents)
      ensures (force || !old(IsCacheValid(agentId, clock))) && agentId !in old(registry.agents) ==>
        r == Err(NotFound(agentId)) && cache == old(cache) && history == old(history)
        && registry.agents == old(registry.agents)
      ensures (force || !old(IsCacheValid(agentId, clock))) && agentId in old(registry.agents) ==>
        var record := PerformCheck(old(registry.agents[agentId]), now);
        r == Ok(record)
        && cache == old(cache)[agentId := Cached(record, clock)]
        && registry.agents == old(registry.agents)[agentId := old(registry.agents[agentId]).(
             status := ResultToStatus(record.result), lastHealthCheck := Some(now))]
        && history == AppendHistory(old(history), record, maxHistoryPerAgent, maxTotalHistory)
    {
      if !force && IsCacheValid(agentId, clock) {
        return Ok(cache[agentId].record);
      }
      var found := registry.Get(agentId);
      if found.Err? {
        return Err(found.error);
      }
      var record := PerformCheck(found.value, now);
      cache := cache[agentId := Cached(record, clock)];
      var _ := registry.UpdateStatus(agentId, ResultToStatus(record.result), Some(now), now);
      AddToHistory(record);
      r := Ok(record);
    }

    /** `get_history(agent_id, limit)`: the agent's newest `limit` records, newest first. */
    function GetHistory(agentId: string, limit: int): (r: seq<HealthRecord>)
      reads this
      ensures |r| == SliceLength(|Lookup(history, agentId)|, limit)
      ensures forall i :: 0 <= i < |r| ==>
        r[i] == Lookup(history, agentId)[|Lookup(history, agentId)| - 1 - i]
    {
      NewestFirstSpec(Lookup(history, agentId), limit);
      NewestFirst(Lookup(history, agentId), limit)
    }

    /**
     * `clear_cache(agent_id)`: drops that agent's entry when an id is given,
     * everything otherwise; an empty id counts as none given.
     */
    method ClearCache(agentId: Option<string>)
      modifies this
      ensures history == old(history)
      ensures agentId.Some? && agentId.value != [] ==> cache == old(cache) - {agentId.value}
      ensures agentId.None? || agentId.value == [] ==> cache == map[]
    {
      if agentId.Some? && agentId.value != [] {
        cache := cache - {agentId.value};
      } else {
        cache := map[];
      }
    }
  }

  /** A fresh record is served from the cache for exactly `cache_ttl` clock units after it was taken. */
  lemma CacheServesWithinTtl(c: HealthChecker, agentId: string, record: HealthRecord, cachedAt: int, clock: int)
    requires agentId in c.cache && c.cache[agentId] == Cached(record, cachedAt)
    ensures c.IsCacheValid(agentId, clock) <==> clock < cachedAt + c.cacheTtl
  {
  }
}
