/**
 * The naming scheme the two JSON file stores share: a record with key `k`
 * lives in the file `k.json`, is first written to `k.json.tmp`, and a
 * directory listing reports the stem of every `*.json` file.
 *
 * A directory is modelled as a map from file name to content; sub-directories
 * and other file systems effects are outside the model.
 */
module Files {
  import opened Common

  const JSON_SUFFIX: string := ".json"
  const TMP_SUFFIX: string := ".json.tmp"

  /** `<dir>/<key>.json` */
  function Target(key: string): string { key + JSON_SUFFIX }

  /** `<dir>/<key>.json.tmp`, the file an atomic write goes through. */
  function Temp(key: string): string { key + TMP_SUFFIX }

  /**
   * `path.suffix == ".json"`: the text after the last dot is "json" and that
   * dot is not the first character of the name (pathlib gives a dot file
   * such as ".json" no suffix at all).
   */
  predicate HasJsonSuffix(name: string) {
    |name| > |JSON_SUFFIX| && EndsWith(name, JSON_SUFFIX)
  }

  /** `path.stem` of a name whose suffix is ".json". */
  function Stem(name: string): (r: string)
    requires HasJsonSuffix(name)
    ensures |r| > 0 && Target(r) == name
  {
    name[..|name| - |JSON_SUFFIX|]
  }

  /**
   * The names a listing reports: the stems of the `*.json` files. The
   * `.json.tmp` exclusion of both listings is implied by the suffix test.
   */
  function Listed<C>(dir: map<string, C>): (r: set<string>)
    ensures forall k :: k in r <==> k != [] && Target(k) in dir
  {
    assert forall k :: k != [] ==> HasJsonSuffix(Target(k)) && Stem(Target(k)) == k;
    set n | n in dir && HasJsonSuffix(n) :: Stem(n)
  }

  /** A temporary file never passes the suffix test, so it is never listed. */
  lemma TempNotListed(key: string)
    ensures !HasJsonSuffix(Temp(key))
  {
    var t := Temp(key);
    assert t[|t| - 1] == 'p';
  }

  /** Distinct keys have distinct files, and no temporary file is anyone's target. */
  lemma NamesDistinct(a: string, b: string)
    ensures Target(a) == Target(b) <==> a == b
    ensures Temp(a) != Target(b)
  {
    if Target(a) == Target(b) {
      assert a == Target(a)[..|a|] == Target(b)[..|b|] == b;
    }
    var t, u := Temp(a), Target(b);
    assert t[|t| - 1] == 'p' && u[|u| - 1] == 'n';
  }

  /**
   * The atomic write: after `<key>.json.tmp` is renamed over `<key>.json` the
   * listing gains exactly the key (a key "" has the dot file ".json", which
   * is never listed).
   */
  lemma ListedAfterReplace<C>(dir: map<string, C>, key: string, c: C)
    ensures Listed(dir[Target(key) := c] - {Temp(key)}) ==
      if key == [] then Listed(dir) else Listed(dir) + {key}
  {
    forall k ensures Target(k) != Temp(key) { NamesDistinct(key, k); }
    forall k ensures Target(k) == Target(key) <==> k == key { NamesDistinct(k, key); }
  }

  /** Removing a temporary file does not change the listing. */
  lemma ListedWithoutTemp<C>(dir: map<string, C>, key: string)
    ensures Listed(dir - {Temp(key)}) == Listed(dir)
  {
    forall k ensures Target(k) != Temp(key) { NamesDistinct(key, k); }
  }

  /** Unlinking `<key>.json` removes exactly the key from the listing. */
  lemma ListedAfterUnlink<C>(dir: map<string, C>, key: string)
    ensures Listed(dir - {Target(key)}) == Listed(dir) - {key}
  {
    forall k ensures Target(k) == Target(key) <==> k == key { NamesDistinct(k, key); }
  }
}
