/**
 * The in-memory audit trail: entries are appended in recording order, the
 * trail keeps only the newest 10000, queries filter by event type, actor and
 * a lower time bound and answer newest first, and the export lists every
 * entry as a JSON record in recording order.
 */
module Audit {
  import opened Common
  import opened Json

  /** `AuditEventType` */
  datatype AuditEventType =
    | TaskRoutedEvent
    | TaskExecuted
    | TaskFailedEvent
    | WorkflowStartedEvent
    | WorkflowCompletedEvent
    | PermissionCheck
    | PermissionDenied
    | AgentRegisteredEvent

  /** The enum's string value. */
  function EventTypeName(t: AuditEventType): string {
    match t
    case TaskRoutedEvent => "task_routed"
    case TaskExecuted => "task_executed"
    case TaskFailedEvent => "task_failed"
    case WorkflowStartedEvent => "workflow_started"
    case WorkflowCompletedEvent => "workflow_completed"
    case PermissionCheck => "permission_check"
    case PermissionDenied => "permission_denied"
    case AgentRegisteredEvent => "agent_registered"
  }

  /** `AuditEventType(value)`: None where the enum raises. */
  function ParseEventType(s: string): (r: Option<AuditEventType>)
    ensures r.Some? ==> EventTypeName(r.value) == s
  {
    if s == "task_routed" then Some(TaskRoutedEvent)
    else if s == "task_executed" then Some(TaskExecuted)
    else if s == "task_failed" then Some(TaskFailedEvent)
    else if s == "workflow_started" then Some(WorkflowStartedEvent)
    else if s == "workflow_completed" then Some(WorkflowCompletedEvent)
    else if s == "permission_check" then Some(PermissionCheck)
    else if s == "permission_denied" then Some(PermissionDenied)
    else if s == "agent_registered" then Some(AgentRegisteredEvent)
    else None
  }

  /** Every event type's value parses back to it. */
  lemma EventTypeRoundTrip(t: AuditEventType)
    ensures ParseEventType(EventTypeName(t)) == Some(t)
  {
  }

  /** `AuditEntry`; the timestamp is an opaque, ordered instant. */
  datatype AuditEntry = AuditEntry(
    entryId: string,
    eventType: AuditEventType,
    actor: string,
    target: Option<string>,
    details: Object,
    result: string,
    timestamp: int)

  /** `self._max_entries` */
  const MAX_ENTRIES: nat := 10000

  /** The optional filters of `get_entries`. */
  datatype Query = Query(eventType: Option<AuditEventType>, actor: Option<string>, since: Option<int>)

  /** An entry passes every filter that is given. */
  predicate Accepts(q: Query, e: AuditEntry) {
    (q.eventType.None? || e.eventType == q.eventType.value)
    && (q.actor.None? || e.actor == q.actor.value)
    && (q.since.None? || e.timestamp >= q.since.value)
  }

  /** `[e for e in entries if e.event_type == event_type]` when a type is given. */
  function ByType(entries: seq<AuditEntry>, t: Option<AuditEventType>): seq<AuditEntry> {
    if t.Some? then Where(entries, (e: AuditEntry) => e.eventType == t.value) else entries
  }

  /** `[e for e in entries if e.actor == actor]` when an actor is given. */
  function ByActor(entries: seq<AuditEntry>, actor: Option<string>): seq<AuditEntry> {
    if actor.Some? then Where(entries, (e: AuditEntry) => e.actor == actor.value) else entries
  }

  /** `[e for e in entries if e.timestamp >= since]` when a bound is given. */
  function BySince(entries: seq<AuditEntry>, since: Option<int>): seq<AuditEntry> {
    if since.Some? then Where(entries, (e: AuditEntry) => e.timestamp >= since.value) else entries
  }

  /** The three comprehensions of `get_entries`, applied one after the other. */
  function Matching(entries: seq<AuditEntry>, q: Query): (r: seq<AuditEntry>)
    ensures |r| <= |entries|
  {
    BySince(ByActor(ByType(entries, q.eventType), q.actor), q.since)
  }

  /** An entry is returned by the filters exactly when it is recorded and passes every given filter. */
  lemma MatchingIff(entries: seq<AuditEntry>, q: Query)
    ensures forall e :: e in Matching(entries, q) <==> e in entries && Accepts(q, e)
  {
  }

  /** Recording an entry adds it to the end of every query it passes, and to no other. */
  lemma MatchingAppend(entries: seq<AuditEntry>, e: AuditEntry, q: Query)
    ensures Matching(entries + [e], q) == Matching(entries, q) + (if Accepts(q, e) then [e] else [])
  {
    var t1 := ByType(entries, q.eventType);
    if q.eventType.Some? {
      WhereAppend(entries, e, (x: AuditEntry) => x.eventType == q.eventType.value);
    }
    var pass1 := q.eventType.None? || e.eventType == q.eventType.value;
    assert ByType(entries + [e], q.eventType) == t1 + (if pass1 then [e] else []);
    var t2 := ByActor(t1, q.actor);
    var pass2 := pass1 && (q.actor.None? || e.actor == q.actor.value);
    if pass1 {
      if q.actor.Some? {
        WhereAppend(t1, e, (x: AuditEntry) => x.actor == q.actor.value);
      }
      assert ByActor(t1 + [e], q.actor) == t2 + (if pass2 then [e] else []);
      if pass2 && q.since.Some? {
        WhereAppend(t2, e, (x: AuditEntry) => x.timestamp >= q.since.value);
      }
    } else {
      assert t1 + [] == t1;
    }
  }

  /** `entry.model_dump(mode="json")`: every field under its name; the timestamp stays an instant. */
  function Dump(e: AuditEntry): (r: Value)
    ensures r.Dict? && r.fields.Keys == {"entry_id", "event_type", "actor", "target", "details", "result", "timestamp"}
  {
    Dict(map[
      "entry_id" := Str(e.entryId),
      "event_type" := Str(EventTypeName(e.eventType)),
      "actor" := Str(e.actor),
      "target" := (if e.target.Some? then Str(e.target.value) else Null),
      "details" := Dict(e.details),
      "result" := Str(e.result),
      "timestamp" := Int(e.timestamp)])
  }

  /** `AuditEntry.model_validate(record)`: reads an exported record back, None if it is not one. */
  function Load(v: Value): Option<AuditEntry> {
    if !v.Dict? then None
    else
      var f := v.fields;
      if !("entry_id" in f && "event_type" in f && "actor" in f && "target" in f
           && "details" in f && "result" in f && "timestamp" in f) then None
      else if !(f["entry_id"].Str? && f["event_type"].Str? && f["actor"].Str?
                && (f["target"].Null? || f["target"].Str?) && f["details"].Dict?
                && f["result"].Str? && f["timestamp"].Int?) then None
      else
        match ParseEventType(f["event_type"].s)
        case None => None
        case Some(t) =>
          Some(AuditEntry(f["entry_id"].s, t, f["actor"].s,
            if f["target"].Str? then Some(f["target"].s) else None,
            f["details"].fields, f["result"].s, f["timestamp"].i))
  }

  /** The export loses nothing: each record reads back as the entry it came from. */
  lemma DumpLoad(e: AuditEntry)
    ensures Load(Dump(e)) == Some(e)
  {
    EventTypeRoundTrip(e.eventType);
  }

  class AuditTrail {
    var entries: seq<AuditEntry>

    ghost predicate Valid()
      reads this
    {
      |entries| <= MAX_ENTRIES
    }

    constructor()
      ensures Valid() && entries == []
    {
      entries := [];
    }

    /** `record(entry)`: append, then keep only the newest `_max_entries`. */
    method Record(entry: AuditEntry)
      requires Valid()
      modifies this
      ensures Valid()
      ensures entries == KeepNewest(old(entries) + [entry], MAX_ENTRIES)
      ensures entries != [] && entries[|entries| - 1] == entry
      ensures entries[..|entries| - 1] == old(entries)[|old(entries)| + 1 - |entries|..]
    {
      KeepNewestAppend(entries, entry, MAX_ENTRIES);
      entries := entries + [entry];
      if |entries| > MAX_ENTRIES {
        entries := entries[|entries| - MAX_ENTRIES..];
      }
    }

    /** `get_entries(event_type, actor, since, limit)`: the newest `limit` matches, newest first. */
    function GetEntries(q: Query, limit: int): (r: seq<AuditEntry>)
      reads this
      ensures |r| <= |entries|
      ensures forall e :: e in r ==> e in entries && Accepts(q, e)
      ensures |r| == SliceLength(|Matching(entries, q)|, limit)
      ensures forall i :: 0 <= i < |r| ==> r[i] == Matching(entries, q)[|Matching(entries, q)| - 1 - i]
    {
      var matches := Matching(entries, q);
      MatchingIff(entries, q);
      NewestFirstSpec(matches, limit);
      var r := NewestFirst(matches, limit);
      assert forall e :: e in r ==> e in matches;
      r
    }

    /** `get_recent(limit)`: the newest `limit` entries, newest first. */
    function GetRecent(limit: int): (r: seq<AuditEntry>)
      reads this
      ensures r == GetEntries(Query(None, None, None), limit)
    {
      NewestFirst(entries, limit)
    }

    /** `clear()`: returns how many entries were dropped. */
    method Clear() returns (count: nat)
      modifies this
      ensures Valid() && count == |old(entries)| && entries == []
    {
      count := |entries|;
      entries := [];
    }

    /** `export_json()`: one record per entry, in recording order. */
    function ExportJson(): (r: seq<Value>)
      reads this
      ensures |r| == |entries|
      ensures forall i :: 0 <= i < |r| ==> Load(r[i]) == Some(entries[i])
    {
      var es := entries;
      var r := seq(|es|, i requires 0 <= i < |es| => Dump(es[i]));
      forall i | 0 <= i < |r| ensures Load(r[i]) == Some(es[i]) {
        DumpLoad(es[i]);
      }
      r
    }

    /** `entry_count` */
    function EntryCount(): (r: nat)
      reads this
      ensures r == |ExportJson()|
    {
      |entries|
    }
  }

  /**
   * A query answers the matching entries the limit's slice keeps (the newest
   * `min(limit, matches)` for a positive limit), the most recent at index 0.
   */
  lemma GetEntriesSpec(entries: seq<AuditEntry>, q: Query, limit: int)
    ensures var m := Matching(entries, q);
      var r := NewestFirst(m, limit);
      |r| == SliceLength(|m|, limit) &&
      (forall i :: 0 <= i < |r| ==> r[i] == m[|m| - 1 - i])
  {
    NewestFirstSpec(Matching(entries, q), limit);
  }

  /** A just-recorded entry that passes the filters heads the query's answer. */
  lemma RecordedEntryFirst(entries: seq<AuditEntry>, e: AuditEntry, q: Query, limit: int)
    requires limit >= 0 && Accepts(q, e)
    ensures NewestFirst(Matching(entries + [e], q), limit) != []
    ensures NewestFirst(Matching(entries + [e], q), limit)[0] == e
  {
    MatchingAppend(entries, e, q);
    NewestFirstSpec(Matching(entries + [e], q), limit);
  }
}
