/**
 * JSON file state persistence: each key names one file `<key>.json` holding
 * an envelope `{_version, _saved_at, _key, data}`, written atomically through
 * a temporary file. Keys are checked before any file is touched.
 */
module Persistence {
  import opened Common
  import opened Json
  import opened Files

  /** Incremented when the state schema changes. */
  const STATE_VERSION: int := 1

  /** `[a-zA-Z0-9]` */
  predicate IsKeyHead(c: char) { 'a' <= c <= 'z' || 'A' <= c <= 'Z' || '0' <= c <= '9' }

  /** `[a-zA-Z0-9_-]` */
  predicate IsKeyChar(c: char) { IsKeyHead(c) || c == '_' || c == '-' }

  /** A key `_KEY_PATTERN.match` accepts: `^[a-zA-Z0-9][a-zA-Z0-9_-]*$`, one trailing newline admitted by `$`. */
  predicate ValidKey(key: string) {
    DollarMatch(key, IsKeyHead, IsKeyChar)
  }

  const KEY_PATTERN: string := "^[a-zA-Z0-9][a-zA-Z0-9_-]*$"

  /** `_validate_key`: None for an acceptable key, else the ValueError message. */
  function KeyError(key: string): (r: Option<string>)
    ensures r.None? <==> ValidKey(key)
    ensures key == [] ==> r == Some("State key must not be empty")
  {
    ScanMatchCorrect(key, IsKeyHead, IsKeyChar);
    if key == [] then Some("State key must not be empty")
    else if !ScanMatch(key, IsKeyHead, IsKeyChar) then
      Some("Invalid state key '" + key + "'. Keys must be alphanumeric with "
        + "hyphens and underscores only (pattern: " + KEY_PATTERN + ")")
    else None
  }

  /**
   * An accepted key is a safe file name: no path separator and no dot, and
   * the only character outside `[a-zA-Z0-9_-]` it may carry is one final newline.
   */
  lemma ValidKeyIsSafe(key: string)
    requires ValidKey(key)
    ensures key != []
    ensures forall i :: 0 <= i < |key| ==> key[i] != '/' && key[i] != '.'
    ensures forall i :: 0 <= i < |key| - 1 ==> IsKeyChar(key[i])
  {
    if !HeadTail(key, IsKeyHead, IsKeyChar) {
      var p := key[..|key| - 1];
      assert forall i :: 0 <= i < |p| ==> p[i] == key[i];
    }
  }

  lemma KeyExamples()
    ensures ValidKey("agent-registry") && ValidKey("workflow_executions") && ValidKey("A1")
    ensures ValidKey("agent-registry\n")
    ensures !ValidKey("") && !ValidKey("_hidden") && !ValidKey("-x") && !ValidKey("a.b") && !ValidKey("../etc")
  {
    assert !IsKeyChar('.') && "a.b"[1] == '.';
    assert !IsKeyHead('.') && "../etc"[0] == '.';
    var v := "agent-registry\n";
    assert v[..|v| - 1] == "agent-registry";
  }

  /** What a file holds: parsed JSON, or something that does not parse or cannot be read. */
  datatype StateFile = Parsed(json: Value) | Unreadable

  datatype StoreError =
    | InvalidKey(message: string)  // ValueError from `_validate_key`
    | WriteFailed                  // the OSError a failed write re-raises
    | NotAnEnvelope                // the file holds JSON that is not an object: `.get` raises

  /** The envelope `save` writes around the data. `savedAt` is the ISO timestamp of the call. */
  function Envelope(key: string, data: Object, savedAt: string): Object {
    map["_version" := Int(STATE_VERSION), "_saved_at" := Str(savedAt), "_key" := Str(key), "data" := Dict(data)]
  }

  /** `dict.get(k)`: a missing entry reads as None (JSON null). */
  function Get(o: Object, k: string, default: Value): Value {
    if k in o then o[k] else default
  }

  /**
   * What `load` returns for an existing file: the `data` entry (an empty dict
   * when absent) of a parsed envelope, None for an unreadable file. The
   * version is compared only to log a warning.
   */
  function Unwrap(f: StateFile): (r: Result<Option<Value>, StoreError>)
    ensures r.Ok? && r.value.None? <==> f.Unreadable?
    ensures r.Err? <==> f.Parsed? && !f.json.Dict?
  {
    match f
    case Unreadable => Ok(None)
    case Parsed(Dict(envelope)) => Ok(Some(Get(envelope, "data", Dict(map[]))))
    case Parsed(_) => Err(NotAnEnvelope)
  }

  /** The metadata `get_metadata` returns: version, saved_at and key, each None when absent. */
  datatype Metadata = Metadata(version: Value, savedAt: Value, key: Value)

  function MetadataOf(f: StateFile): (r: Result<Option<Metadata>, StoreError>)
    ensures r.Ok? && r.value.None? <==> f.Unreadable?
    ensures r.Err? <==> f.Parsed? && !f.json.Dict?
  {
    match f
    case Unreadable => Ok(None)
    case Parsed(Dict(envelope)) =>
      Ok(Some(Metadata(Get(envelope, "_version", Null), Get(envelope, "_saved_at", Null), Get(envelope, "_key", Null))))
    case Parsed(_) => Err(NotAnEnvelope)
  }

  /** Reading back a saved envelope returns the saved data, and its metadata the save's own. */
  lemma EnvelopeRoundTrip(key: string, data: Object, savedAt: string)
    ensures Unwrap(Parsed(Dict(Envelope(key, data, savedAt)))) == Ok(Some(Dict(data)))
    ensures MetadataOf(Parsed(Dict(Envelope(key, data, savedAt)))) ==
      Ok(Some(Metadata(Int(STATE_VERSION), Str(savedAt), Str(key))))
  {
  }

  /** A version mismatch does not change what `load` returns. */
  lemma UnwrapIgnoresVersion(envelope: Object, version: Value)
    ensures Unwrap(Parsed(Dict(envelope["_version" := version]))) == Unwrap(Parsed(Dict(envelope)))
  {
  }

  class StatePersistence {
    /** The state directory: file name to content. */
    var files: map<string, StateFile>

    /** Opens (or creates) the state directory; files already present stay. */
    constructor(existing: map<string, StateFile>)
      ensures files == existing
    {
      files := existing;
    }

    /** `load(key)`: the envelope's data, None when there is no readable file. */
    function Load(key: string): (r: Result<Option<Value>, StoreError>)
      reads this
      ensures r.Err? && r.error.InvalidKey? <==> !ValidKey(key)
      ensures r == Ok(None) <==> ValidKey(key) && (Target(key) !in files || files[Target(key)].Unreadable?)
      ensures ValidKey(key) && Target(key) in files ==> r == Unwrap(files[Target(key)])
    {
      var err := KeyError(key);
      if err.Some? then Err(InvalidKey(err.value))
      else if Target(key) !in files then Ok(None)
      else Unwrap(files[Target(key)])
    }

    /** `exists(key)`: whether `<key>.json` is present. */
    function Exists(key: string): (r: Result<bool, StoreError>)
      reads this
      ensures r.Err? <==> !ValidKey(key)
      ensures r.Ok? ==> (r.value <==> Target(key) in files)
    {
      var err := KeyError(key);
      if err.Some? then Err(InvalidKey(err.value)) else Ok(Target(key) in files)
    }

    /** `get_metadata(key)`: the envelope fields without the data. */
    function GetMetadata(key: string): (r: Result<Option<Metadata>, StoreError>)
      reads this
      ensures r.Err? && r.error.InvalidKey? <==> !ValidKey(key)
      ensures r == Ok(None) <==> ValidKey(key) && (Target(key) !in files || files[Target(key)].Unreadable?)
      ensures ValidKey(key) && Target(key) in files ==> r == MetadataOf(files[Target(key)])
    {
      var err := KeyError(key);
      if err.Some? then Err(InvalidKey(err.value))
      else if Target(key) !in files then Ok(None)
      else MetadataOf(files[Target(key)])
    }

    /**
     * `save(key, data)`: an invalid key is refused with no file touched;
     * otherwise the envelope goes to `<key>.json.tmp`, which is renamed over
     * `<key>.json`. `writeSucceeds` stands for the file system: on failure the
     * temporary file is unlinked and every stored key reads as before.
     */
    method Save(key: string, data: Object, savedAt: string, writeSucceeds: bool)
      returns (r: Result<string, StoreError>)
      modifies this
      ensures !ValidKey(key) ==> (r == Err(InvalidKey(KeyError(key).value)) && files == old(files))
      ensures ValidKey(key) && writeSucceeds ==> (r == Ok(Target(key))
        && files == old(files)[Target(key) := Parsed(Dict(Envelope(key, data, savedAt)))] - {Temp(key)})
      ensures ValidKey(key) && !writeSucceeds ==> (r == Err(WriteFailed) && files == old(files) - {Temp(key)})
      ensures ValidKey(key) && writeSucceeds ==> (Load(key) == Ok(Some(Dict(data))) && Exists(key) == Ok(true)
        && GetMetadata(key) == Ok(Some(Metadata(Int(STATE_VERSION), Str(savedAt), Str(key)))))
      ensures forall k :: (k != key || r.Err?) ==> (Load(k) == old(Load(k)) && Exists(k) == old(Exists(k)))
      ensures Listed(files) == if r.Ok? then old(Listed(files)) + {key} else old(Listed(files))
    {
      var err := KeyError(key);
      if err.Some? {
        return Err(InvalidKey(err.value));
      }
      ValidKeyIsSafe(key);
      var target, tmp := Target(key), Temp(key);
      forall k ensures Target(k) != tmp && (Target(k) == target <==> k == key) {
        NamesDistinct(key, k);
        NamesDistinct(k, key);
      }
      ghost var before := files;
      var content := Parsed(Dict(Envelope(key, data, savedAt)));
      files := files[tmp := content];
      if !writeSucceeds {
        files := files - {tmp};
        assert files == before - {tmp};
        ListedWithoutTemp(before, key);
        forall k ensures Load(k) == old(Load(k)) && Exists(k) == old(Exists(k)) {
          assert Target(k) != tmp;
        }
        return Err(WriteFailed);
      }
      files := files[target := files[tmp]] - {tmp};
      assert files == before[target := content] - {tmp};
      ListedAfterReplace(before, key, content);
      forall k | k != key ensures Load(k) == old(Load(k)) && Exists(k) == old(Exists(k)) {
        assert Target(k) != target && Target(k) != tmp;
      }
      EnvelopeRoundTrip(key, data, savedAt);
      r := Ok(target);
    }

    /** `delete(key)`: True when the file was there and is now gone. */
    method Delete(key: string) returns (r: Result<bool, StoreError>)
      modifies this
      ensures r.Err? <==> !ValidKey(key)
      ensures r.Err? ==> files == old(files)
      ensures r.Ok? ==> (r.value <==> Target(key) in old(files)) && files == old(files) - {Target(key)}
      ensures r.Ok? ==> Exists(key) == Ok(false) && Load(key) == Ok(None)
      ensures forall k :: k != key ==> (Load(k) == old(Load(k)) && Exists(k) == old(Exists(k)))
      ensures Listed(files) == if r.Ok? then old(Listed(files)) - {key} else old(Listed(files))
    {
      var err := KeyError(key);
      if err.Some? {
        return Err(InvalidKey(err.value));
      }
      var target := Target(key);
      forall k ensures Target(k) == target <==> k == key {
        NamesDistinct(k, key);
      }
      ListedAfterUnlink(files, key);
      if target !in files {
        return Ok(false);
      }
      files := files - {target};
      r := Ok(true);
    }

    /** `list_keys()`: the stems of all `.json` files, ascending. */
    method ListKeys() returns (r: seq<string>)
      ensures StrictlySorted(r)
      ensures forall k :: k in r <==> k != [] && Target(k) in files
    {
      r := SortedKeys(Listed(files));
    }
  }
}
