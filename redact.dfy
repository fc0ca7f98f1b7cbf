/**
 * Redaction of structured log data: before a log record's extra data is
 * written out, the value of every key whose lowercase form names a secret is
 * replaced by a fixed marker, inside nested objects too. Lists are copied
 * as they are, so objects inside lists keep their secrets.
 */
module Redaction {
  import opened Common
  import opened Json

  /** `StructuredJsonFormatter.SENSITIVE_KEYS` */
  const SENSITIVE_KEYS: set<string> := {"password", "api_key", "secret", "token", "credential", "auth"}

  /** What a redacted value becomes. */
  const REDACTED: string := "***REDACTED***"

  /** `key.lower() in SENSITIVE_KEYS`; the lowering is ASCII-only. */
  predicate Sensitive(key: string) {
    Lower(key) in SENSITIVE_KEYS
  }

  /** `_redact(data)`: a fresh object with the same keys, sensitive values masked, nested objects redacted. */
  function Redact(o: Object): (r: Object)
    ensures r.Keys == o.Keys
    decreases Dict(o)
  {
    map k | k in o :: if Sensitive(k) then Str(REDACTED) else if o[k].Dict? then Dict(Redact(o[k].fields)) else o[k]
  }

  /**
   * No secret is left at any depth reachable through objects: every sensitive
   * key holds the marker, and every object under a non-sensitive key is clean.
   */
  predicate Clean(o: Object)
    decreases Dict(o)
  {
    forall k :: k in o ==>
      (Sensitive(k) ==> o[k] == Str(REDACTED))
      && (!Sensitive(k) && o[k].Dict? ==> Clean(o[k].fields))
  }

  /** Redacted data is clean. */
  lemma {:induction false} RedactClean(o: Object)
    ensures Clean(Redact(o))
    decreases Dict(o)
  {
    var r := Redact(o);
    forall k | k in r && !Sensitive(k) && r[k].Dict?
      ensures Clean(r[k].fields)
    {
      assert o[k].Dict?;
      RedactClean(o[k].fields);
    }
  }

  /** Redaction changes only what is sensitive: clean data comes back unchanged. */
  lemma {:induction false} RedactCleanUnchanged(o: Object)
    requires Clean(o)
    ensures Redact(o) == o
    decreases Dict(o)
  {
    var r := Redact(o);
    forall k | k in o ensures r[k] == o[k] {
      if !Sensitive(k) && o[k].Dict? {
        RedactCleanUnchanged(o[k].fields);
      }
    }
  }

  /** Redacting twice is redacting once. */
  lemma RedactIdempotent(o: Object)
    ensures Redact(Redact(o)) == Redact(o)
  {
    RedactClean(o);
    RedactCleanUnchanged(Redact(o));
  }

  /** The key check ignores ASCII case. */
  lemma RedactIgnoresCase()
    ensures Redact(map["Password" := Str("hunter2")]) == map["Password" := Str(REDACTED)]
  {
    assert Lower("Password") == "password";
  }

  /** An object inside a list is not descended into: its secret stays. */
  lemma RedactSkipsLists()
    ensures var inList := map["items" := List([Dict(map["token" := Str("t")])])];
      Redact(inList) == inList
  {
    assert Lower("items") == "items";
  }

  /** A nested object is redacted in place, its other entries kept. */
  lemma RedactNested()
    ensures var nested := map["db" := Dict(map["API_KEY" := Int(7), "host" := Str("h")])];
      Redact(nested) == map["db" := Dict(map["API_KEY" := Str(REDACTED), "host" := Str("h")])]
  {
    assert Lower("db") == "db";
    var n := map["API_KEY" := Int(7), "host" := Str("h")];
    assert Redact(n) == map["API_KEY" := Str(REDACTED), "host" := Str("h")] by {
      assert Lower("API_KEY") == "api_key";
      assert Lower("host") == "host";
    }
  }
}
