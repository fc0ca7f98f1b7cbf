/**
 * Checkpointing of workflow executions: one JSON file per execution under
 * `<storage>/workflows/`, written atomically through a temporary file.
 */
module Checkpoint {
  import opened Common
  import opened Files
  import opened Workflows

  /**
   * The content of one file in the checkpoint directory: a checkpoint record
   * `{execution, checkpointed_at}`, or anything that does not parse back into
   * an execution (bad JSON, an unreadable file, a missing or invalid
   * `execution` entry). Serialisation is taken to be lossless.
   */
  datatype CheckpointFile =
    | Snapshot(execution: Execution, checkpointedAt: string)
    | Unusable

  class Checkpointer {
    /** The `workflows/` directory: file name to content. */
    var files: map<string, CheckpointFile>

    /** Opens (or creates) the directory; files already present stay. */
    constructor(existing: map<string, CheckpointFile>)
      ensures files == existing
    {
      files := existing;
    }

    /**
     * `load(execution_id)`: the stored execution, or None when the file is
     * missing or cannot be read back into an execution.
     */
    function Load(executionId: string): (r: Option<Execution>)
      reads this
      ensures r.Some? <==> Target(executionId) in files && files[Target(executionId)].Snapshot?
      ensures r.Some? ==> r.value == files[Target(executionId)].execution
    {
      var target := Target(executionId);
      if target !in files then None
      else match files[target]
        case Snapshot(e, _) => Some(e)
        case Unusable => None
    }

    /**
     * `save(execution)`: the record goes to `<id>.json.tmp`, which is then
     * renamed over `<id>.json`. `writeSucceeds` stands for the file system:
     * when a write or the rename fails the temporary file is unlinked, the
     * error propagates and every checkpoint reads as before.
     */
    method Save(e: Execution, checkpointedAt: string, writeSucceeds: bool) returns (r: Result<string, string>)
      modifies this
      ensures writeSucceeds ==> (r == Ok(Target(e.executionId))
        && files == old(files)[Target(e.executionId) := Snapshot(e, checkpointedAt)] - {Temp(e.executionId)})
      ensures !writeSucceeds ==> (r.Err? && files == old(files) - {Temp(e.executionId)})
      ensures writeSucceeds ==> Load(e.executionId) == Some(e)
      ensures forall k :: (k != e.executionId || !writeSucceeds) ==> Load(k) == old(Load(k))
      ensures Listed(files) ==
        if writeSucceeds && e.executionId != [] then old(Listed(files)) + {e.executionId} else old(Listed(files))
      ensures Temp(e.executionId) !in files
    {
      var target, tmp := Target(e.executionId), Temp(e.executionId);
      forall k ensures Target(k) != tmp && (Target(k) == target <==> k == e.executionId) {
        NamesDistinct(e.executionId, k);
        NamesDistinct(k, e.executionId);
      }
      ghost var before := files;
      files := files[tmp := Snapshot(e, checkpointedAt)];
      if !writeSucceeds {
        files := files - {tmp};
        assert files == before - {tmp};
        ListedWithoutTemp(before, e.executionId);
        return Err("OSError");
      }
      files := files[target := files[tmp]] - {tmp};
      assert files == before[target := Snapshot(e, checkpointedAt)] - {tmp};
      ListedAfterReplace(before, e.executionId, Snapshot(e, checkpointedAt));
      r := Ok(target);
    }

    /** `list_checkpoints()`: the ids of all checkpoint files, ascending. */
    method ListCheckpoints() returns (r: seq<string>)
      ensures StrictlySorted(r)
      ensures forall k :: k in r <==> k != [] && Target(k) in files
    {
      r := SortedKeys(Listed(files));
    }

    /** `delete(execution_id)`: True when a checkpoint file was there and is now gone. */
    method Delete(executionId: string) returns (r: bool)
      modifies this
      ensures r <==> Target(executionId) in old(files)
      ensures files == old(files) - {Target(executionId)}
      ensures Load(executionId).None?
      ensures forall k :: k != executionId ==> Load(k) == old(Load(k))
      ensures Listed(files) == old(Listed(files)) - {executionId}
    {
      var target := Target(executionId);
      forall k ensures Target(k) == target <==> k == executionId {
        NamesDistinct(k, executionId);
      }
      ListedAfterUnlink(files, executionId);
      if target !in files {
        return false;
      }
      files := files - {target};
      r := true;
    }
  }

  /**
   * Last writer wins: of two successful saves of the same execution id, a
   * load returns the second record, whatever the first one held.
   */
  method LastWriterWins(c: Checkpointer, first: Execution, second: Execution, at1: string, at2: string)
    returns (loaded: Option<Execution>)
    requires first.executionId == second.executionId
    modifies c
    ensures loaded == Some(second)
  {
    var _ := c.Save(first, at1, true);
    var _ := c.Save(second, at2, true);
    loaded := c.Load(first.executionId);
  }
}
