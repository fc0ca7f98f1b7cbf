/**
 * The CMDB agent's dispatch handler: a chat message is normalised, parsed
 * for a CI type, a name hint, an environment, "missing field" filters and a
 * CI identifier, and a chain of keyword branches picks the MCP tool to call
 * and its arguments. The call itself is not part of the model; a decision
 * says which tool would be called with which arguments, or that the handler
 * answers by asking for a CI identifier.
 */
module Dispatch {
  import opened Common
  import opened Json
  import opened Words
  import opened Tasks

  // ------------------------------------------------------------------
  // Character classes
  // ------------------------------------------------------------------

  /** `\w` on ASCII: letters, digits and underscore. */
  predicate IsWordChar(c: char) {
    'a' <= c <= 'z' || 'A' <= c <= 'Z' || '0' <= c <= '9' || c == '_'
  }

  /** `re.findall(r"\b\w+\b", s)`: the maximal runs of word characters. */
  function WordRuns(s: string): (r: seq<string>)
    ensures forall i :: 0 <= i < |r| ==> r[i] != [] && forall j :: 0 <= j < |r[i]| ==> IsWordChar(r[i][j])
  {
    Tokens(s, IsWordChar)
  }

  // ------------------------------------------------------------------
  // _normalize_message
  // ------------------------------------------------------------------

  /** `re.sub(r"^/\S+\s*", "", m)`: one leading "/command" token and the whitespace after it go. */
  function DropCommand(m: string): (r: string)
    ensures |r| <= |m| && r == m[|m| - |r|..]
  {
    if |m| >= 2 && m[0] == '/' && !IsSpace(m[1]) then
      var rest := m[1..];
      TrimLeft(rest[|TakeWhile(rest, NotSpace)|..])
    else m
  }

  /** `_normalize_message`: drop a leading command, then strip. */
  function Normalize(m: string): (r: string)
    ensures r == [] || (!IsSpace(r[0]) && !IsSpace(r[|r| - 1]))
    ensures exists i :: OccursAt(m, r, i)
  {
    var d := DropCommand(m);
    var r := Strip(d);
    var i :| OccursAt(d, r, i);
    OccursInSuffix(m, d, r, i);
    r
  }

  /** What occurs in a suffix of `m` occurs in `m`, shifted by where the suffix starts. */
  lemma OccursInSuffix(m: string, d: string, r: string, i: int)
    requires |d| <= |m| && d == m[|m| - |d|..] && OccursAt(d, r, i)
    ensures OccursAt(m, r, |m| - |d| + i)
  {
    assert m[|m| - |d|..][i..i + |r|] == m[|m| - |d| + i..|m| - |d| + i + |r|];
  }

  /** Left-trimming first does not change the strip. */
  lemma StripTrimLeft(q: string)
    ensures Strip(TrimLeft(q)) == Strip(q)
  {
    var l := TrimLeft(q);
    assert TrimLeft(l) == l;
  }

  /** "/cmd query" normalises to the stripped query: the whole command token goes, whatever follows stays. */
  lemma {:induction false} NormalizeCommand(cmd: string, q: string)
    requires cmd != [] && forall j :: 0 <= j < |cmd| ==> !IsSpace(cmd[j])
    requires q == [] || IsSpace(q[0])
    ensures Normalize("/" + cmd + q) == Strip(q)
  {
    var m := "/" + cmd + q;
    var rest := m[1..];
    assert rest == cmd + q;
    assert |m| >= 2 && m[0] == '/' && m[1] == cmd[0];
    TakeWhileRun(cmd, q, NotSpace);
    assert rest[|cmd|..] == q;
    assert DropCommand(m) == TrimLeft(q);
    StripTrimLeft(q);
    assert Normalize(m) == Strip(DropCommand(m));
  }

  /** A message that does not start with "/" followed by a non-space character is only stripped. */
  lemma NormalizePlain(m: string)
    requires m == [] || m[0] != '/' || |m| == 1 || IsSpace(m[1])
    ensures Normalize(m) == Strip(m)
  {
  }

  /** Only the first command token is dropped: a query that itself starts with "/word" is kept whole. */
  lemma {:induction false} NormalizeDropsOnce(cmd: string, rest: string)
    requires cmd != [] && forall j :: 0 <= j < |cmd| ==> !IsSpace(cmd[j])
    requires rest != [] && rest[0] == '/' && !IsSpace(rest[|rest| - 1])
    ensures Normalize("/" + cmd + (" " + rest)) == rest
  {
    var q := " " + rest;
    assert Strip(q) == rest by {
      StripSpaceThen(rest);
    }
    assert Normalize("/" + cmd + q) == Strip(q) by {
      assert q[0] == ' ';
      NormalizeCommand(cmd, q);
    }
  }

  /** One space in front of a string with unspaced ends is all that strip removes. */
  lemma StripSpaceThen(w: string)
    requires w != [] && !IsSpace(w[0]) && !IsSpace(w[|w| - 1])
    ensures Strip(" " + w) == w
  {
    var q := " " + w;
    assert q[0] == ' ' && q[1..] == w;
    assert TrimLeft(q) == TrimLeft(q[1..]);
    assert TrimLeft(w) == w;
    StripTrimLeft(q);
    StripUntrimmed(w);
  }

  // ------------------------------------------------------------------
  // First-match tables
  // ------------------------------------------------------------------

  /** The position of the first group of `table` that `hit` accepts, or `|table|` when none does. */
  function FirstIndex(table: seq<(string, seq<string>)>, hit: seq<string> -> bool): (r: nat)
    ensures r <= |table|
    ensures forall j :: 0 <= j < r ==> !hit(table[j].1)
    ensures r < |table| ==> hit(table[r].1)
    decreases |table|
  {
    if table == [] then 0
    else if hit(table[0].1) then 0
    else 1 + FirstIndex(table[1..], hit)
  }

  /** The name of the first group `hit` accepts. */
  function FirstGroup(table: seq<(string, seq<string>)>, hit: seq<string> -> bool): (r: Option<string>)
    ensures r.None? <==> forall j :: 0 <= j < |table| ==> !hit(table[j].1)
    ensures r.Some? ==> exists i :: (0 <= i < |table| && r.value == table[i].0 && hit(table[i].1)
      && forall j :: 0 <= j < i ==> !hit(table[j].1))
  {
    var i := FirstIndex(table, hit);
    if i < |table| then Some(table[i].0) else None
  }

  // ------------------------------------------------------------------
  // _infer_ci_type
  // ------------------------------------------------------------------

  /** `_CI_TYPE_KEYWORDS`, in the order the dictionary is scanned. */
  const CI_TYPE_KEYWORDS: seq<(string, seq<string>)> := [
    ("server", ["server", "servers", "linux", "windows", "host", "hosts", "vm", "vms", "virtual machine"]),
    ("database", ["database", "databases", "db", "dbs", "oracle", "mysql", "postgres", "sql"]),
    ("application", ["application", "applications", "app", "apps", "service", "services", "web app"]),
    ("network_gear", ["network", "switch", "switches", "router", "routers", "firewall", "firewalls", "load balancer"]),
    ("storage", ["storage", "san", "nas", "disk", "disks", "volume", "volumes"])
  ]

  /** A keyword with a space matches as a substring of the message; any other keyword only as a whole word. */
  predicate KeywordHit(ml: string, words: seq<string>, kw: string) {
    if ' ' in kw then Contains(ml, kw) else kw in words
  }

  /** Some keyword of the group matches. */
  predicate GroupHit(ml: string, words: seq<string>, kws: seq<string>) {
    exists k :: 0 <= k < |kws| && KeywordHit(ml, words, kws[k])
  }

  /** `_infer_ci_type(message_lower)`: the first CI type with a matching keyword. */
  function InferCiType(ml: string): (r: Option<string>)
    ensures r.None? <==> forall j :: 0 <= j < |CI_TYPE_KEYWORDS| ==> !GroupHit(ml, WordRuns(ml), CI_TYPE_KEYWORDS[j].1)
    ensures r.Some? ==> exists i :: (0 <= i < |CI_TYPE_KEYWORDS| && r.value == CI_TYPE_KEYWORDS[i].0
      && GroupHit(ml, WordRuns(ml), CI_TYPE_KEYWORDS[i].1)
      && forall j :: 0 <= j < i ==> !GroupHit(ml, WordRuns(ml), CI_TYPE_KEYWORDS[j].1))
  {
    var words := WordRuns(ml);
    FirstGroup(CI_TYPE_KEYWORDS, kws => GroupHit(ml, words, kws))
  }

  /** A keyword without a space matches only where it stands as a whole word, never inside a longer word. */
  lemma WholeWordOnly(ml: string, kw: string)
    requires ' ' !in kw && KeywordHit(ml, WordRuns(ml), kw)
    ensures exists i :: WholeAt(ml, kw, i, IsWordChar)
  {
    TokensWhole(ml, IsWordChar);
  }

  /** "db" is not a word of "show cmdb", so it does not match there. */
  lemma DbNotInCmdb()
    ensures !KeywordHit("show cmdb", WordRuns("show cmdb"), "db")
  {
    ShowCmdbWords();
  }

  /** The words of "show cmdb". */
  lemma ShowCmdbWords()
    ensures WordRuns("show cmdb") == ["show", "cmdb"]
  {
    assert "show cmdb" == Join(["show", "cmdb"], [' ']);
    TokensJoin(["show", "cmdb"], ' ', IsWordChar);
  }

  /** Types are tried in table order: a server keyword wins over a keyword of any later type. */
  lemma ServerFirst(ml: string)
    requires GroupHit(ml, WordRuns(ml), CI_TYPE_KEYWORDS[0].1)
    ensures InferCiType(ml) == Some("server")
  {
  }

  // ------------------------------------------------------------------
  // _extract_environment
  // ------------------------------------------------------------------

  /** The environment phrases, in the order they are tested. */
  const ENVIRONMENTS: seq<(string, seq<string>)> := [
    ("Production", ["production", " prod "]),
    ("Development", [" dev ", "development"]),
    ("Staging", ["staging", " stage ", "uat"]),
    ("Test", [" test ", "testing env"])
  ]

  /** `_extract_environment(message_lower)`: the first environment with a phrase in the message. */
  function ExtractEnvironment(ml: string): (r: Option<string>)
    ensures r.None? <==> forall j :: 0 <= j < |ENVIRONMENTS| ==> !ContainsAny(ml, ENVIRONMENTS[j].1)
    ensures r.Some? ==> exists i :: (0 <= i < |ENVIRONMENTS| && r.value == ENVIRONMENTS[i].0
      && ContainsAny(ml, ENVIRONMENTS[i].1)
      && forall j :: 0 <= j < i ==> !ContainsAny(ml, ENVIRONMENTS[j].1))
  {
    FirstGroup(ENVIRONMENTS, kws => ContainsAny(ml, kws))
  }

  /** Production is tested first: a message naming production and staging is a production query. */
  lemma ProductionFirst(ml: string)
    requires Contains(ml, "production")
    ensures ExtractEnvironment(ml) == Some("Production")
  {
    assert ContainsAny(ml, ENVIRONMENTS[0].1) by {
      assert ENVIRONMENTS[0].1[0] == "production";
    }
  }

  // ------------------------------------------------------------------
  // Lower-casing words
  // ------------------------------------------------------------------

  /** Lower-casing distributes over concatenation. */
  lemma LowerAppend(a: string, b: string)
    ensures Lower(a + b) == Lower(a) + Lower(b)
  {
  }

  /** `[w.lower() for w in ws]` */
  function Lowered(ws: seq<string>): (r: seq<string>)
    ensures |r| == |ws| && forall i :: 0 <= i < |ws| ==> r[i] == Lower(ws[i])
  {
    seq(|ws|, i requires 0 <= i < |ws| => Lower(ws[i]))
  }

  /** Lower-casing a join lower-cases each part and the separator. */
  lemma {:induction false} LowerJoin(ws: seq<string>, sep: string)
    ensures Lower(Join(ws, sep)) == Join(Lowered(ws), Lower(sep))
    decreases |ws|
  {
    if |ws| > 1 {
      LowerJoin(ws[1..], sep);
      assert Lowered(ws)[1..] == Lowered(ws[1..]);
      LowerAppend(ws[0] + sep, Join(ws[1..], sep));
      LowerAppend(ws[0], sep);
    }
  }

  /** Lower-casing keeps words words: non-empty and without whitespace. */
  lemma LoweredWords(ws: seq<string>)
    requires forall i :: 0 <= i < |ws| ==> ws[i] != [] && forall j :: 0 <= j < |ws[i]| ==> !IsSpace(ws[i][j])
    ensures forall i :: 0 <= i < |ws| ==> Lowered(ws)[i] != [] && forall j :: 0 <= j < |Lowered(ws)[i]| ==> !IsSpace(Lowered(ws)[i][j])
  {
  }

  // ------------------------------------------------------------------
  // _extract_name_hint
  // ------------------------------------------------------------------

  /** The command verbs and filler removed from a search message. */
  const STOP_WORDS: set<string> := {
    "search", "find", "look", "up", "query", "for", "all", "the",
    "show", "me", "list", "get", "a", "an", "in", "on", "with",
    "my", "our", "any", "some", "every"
  }

  /** Words that mark a description rather than a CI name. */
  const NON_NAME_WORDS: set<string> := {
    "create", "dashboard", "eol", "without", "missing", "by",
    "criticality", "production", "development", "staging",
    "environment", "all", "list", "search", "show", "find",
    "generate", "report", "analyze", "display", "build", "make"
  }

  /** The stop words, plus the CI type, its "s" and "es" plurals and, for network gear, "network" and "gear". */
  function StripWords(ciType: Option<string>): set<string> {
    if ciType.Some? && ciType.value != [] then
      var t := ciType.value;
      STOP_WORDS + {t, t + "s", t + "es"} + (if t == "network_gear" then {"network", "gear"} else {})
    else STOP_WORDS
  }

  /** The words of the message, in order, whose lower-case form is not stripped. */
  function HintWords(message: string, ciType: Option<string>): (r: seq<string>)
    ensures forall i :: 0 <= i < |r| ==> r[i] != [] && forall j :: 0 <= j < |r[i]| ==> !IsSpace(r[i][j])
  {
    var strip := StripWords(ciType);
    var r := Where(Split(message), w => Lower(w) !in strip);
    assert forall i :: 0 <= i < |r| ==> r[i] in Split(message);
    r
  }

  /** The hint words are exactly the message's words whose lower-case form is not stripped. */
  lemma HintWordsMembers(message: string, ciType: Option<string>)
    ensures forall w :: w in HintWords(message, ciType) <==> w in Split(message) && Lower(w) !in StripWords(ciType)
  {
  }

  /** `_extract_name_hint(message, ci_type)` */
  function NameHint(message: string, ciType: Option<string>): (r: Option<string>)
    ensures r.Some? ==> r.value != [] && r.value == Strip(Join(HintWords(message, ciType), " "))
  {
    var hint := Strip(Join(HintWords(message, ciType), " "));
    if hint == [] then None
    else
      if NameLike(Split(Lower(hint)), NON_NAME_WORDS) then Some(hint) else None
  }

  /** The guard on the lower-cased hint words: at most three, none of them a non-name word. */
  predicate NameLike(hintWords: seq<string>, nonName: set<string>) {
    |hintWords| <= 3 && forall i :: 0 <= i < |hintWords| ==> hintWords[i] !in nonName
  }

  /**
   * A hint is given exactly when one to three words survive stripping and none
   * of them is a non-name word; the hint is those words joined by single spaces.
   */
  lemma {:induction false} NameHintSpec(message: string, ciType: Option<string>)
    ensures var ws := HintWords(message, ciType);
      NameHint(message, ciType).Some? <==> 1 <= |ws| <= 3 && forall i :: 0 <= i < |ws| ==> Lower(ws[i]) !in NON_NAME_WORDS
    ensures NameHint(message, ciType).Some? ==> Split(NameHint(message, ciType).value) == HintWords(message, ciType)
  {
    HintOfWords(HintWords(message, ciType), NON_NAME_WORDS);
  }

  /** The hint guard, stated on the surviving words themselves. */
  lemma HintOfWords(ws: seq<string>, nonName: set<string>)
    requires forall i :: 0 <= i < |ws| ==> ws[i] != [] && forall j :: 0 <= j < |ws[i]| ==> !IsSpace(ws[i][j])
    ensures var hint := Strip(Join(ws, " "));
      (hint != [] && NameLike(Split(Lower(hint)), nonName)) <==> 1 <= |ws| <= 3 && forall i :: 0 <= i < |ws| ==> Lower(ws[i]) !in nonName
    ensures Strip(Join(ws, " ")) != [] ==> Split(Strip(Join(ws, " "))) == ws
  {
    var hint := Join(ws, " ");
    var lw := Lowered(ws);
    assert Strip(hint) == hint && (hint == [] <==> ws == []) && Split(Lower(hint)) == lw && Split(hint) == ws by {
      JoinedWords(ws);
    }
    NameLikeLowered(ws, nonName);
  }

  /** The guard on lower-cased words, one word at a time. */
  lemma NameLikeLowered(ws: seq<string>, nonName: set<string>)
    ensures NameLike(Lowered(ws), nonName) <==> |ws| <= 3 && forall i :: 0 <= i < |ws| ==> Lower(ws[i]) !in nonName
  {
    var lw := Lowered(ws);
    if forall i :: 0 <= i < |ws| ==> Lower(ws[i]) !in nonName {
      forall i | 0 <= i < |lw| ensures lw[i] !in nonName {
        assert lw[i] == Lower(ws[i]);
      }
    }
  }

  /** Words joined by spaces: the join needs no strip, is empty only for no words, splits back into the words and lower-cases into the lower-cased words. */
  lemma JoinedWords(ws: seq<string>)
    requires forall i :: 0 <= i < |ws| ==> ws[i] != [] && forall j :: 0 <= j < |ws[i]| ==> !IsSpace(ws[i][j])
    ensures Strip(Join(ws, " ")) == Join(ws, " ")
    ensures Join(ws, " ") == [] <==> ws == []
    ensures Split(Lower(Join(ws, " "))) == Lowered(ws)
    ensures Split(Join(ws, " ")) == ws
  {
    var joined := Join(ws, " ");
    assert Strip(joined) == joined by {
      StripJoinedWords(ws);
    }
    assert joined == [] <==> ws == [] by {
      if ws != [] {
        JoinEnds(ws, " ");
      }
    }
    assert Split(Lower(joined)) == Lowered(ws) by {
      LowerJoin(ws, " ");
      assert Lower(" ") == " ";
      LoweredWords(ws);
      SplitJoin(Lowered(ws));
    }
    SplitJoin(ws);
  }

  // ------------------------------------------------------------------
  // _extract_custom_query
  // ------------------------------------------------------------------

  /** Each "missing field" filter and the phrases that ask for it, in the order they are tested. */
  const MISSING_FIELDS: seq<(string, seq<string>)> := [
    ("serial_numberISEMPTY", ["without sn", "no sn", "missing sn", "without serial", "no serial", "missing serial",
                              "without serial number", "no serial number"]),
    ("owned_byISEMPTY", ["without owner", "no owner", "missing owner", "unowned"]),
    ("osISEMPTY", ["without os", "no os", "missing os"])
  ]

  /** The `parts` list: each filter whose phrase group matches, in table order. */
  function QueryParts(ml: string): seq<string> {
    (if ContainsAny(ml, MISSING_FIELDS[0].1) then [MISSING_FIELDS[0].0] else [])
    + (if ContainsAny(ml, MISSING_FIELDS[1].1) then [MISSING_FIELDS[1].0] else [])
    + (if ContainsAny(ml, MISSING_FIELDS[2].1) then [MISSING_FIELDS[2].0] else [])
  }

  /** Where a filter stands in the fixed order. */
  function FieldRank(f: string): nat {
    if f == MISSING_FIELDS[0].0 then 0 else if f == MISSING_FIELDS[1].0 then 1 else 2
  }

  /** Every filter appears exactly when its phrases do, at most once, and in the fixed order. */
  lemma QueryPartsSpec(ml: string)
    ensures forall i :: 0 <= i < |MISSING_FIELDS| ==> (MISSING_FIELDS[i].0 in QueryParts(ml) <==> ContainsAny(ml, MISSING_FIELDS[i].1))
    ensures forall a, b :: 0 <= a < b < |QueryParts(ml)| ==> FieldRank(QueryParts(ml)[a]) < FieldRank(QueryParts(ml)[b])
    ensures forall f :: f in QueryParts(ml) ==> '^' !in f
  {
  }

  /** `_extract_custom_query(message_lower)`: the filters joined by "^", or None when there are none. */
  function CustomQuery(ml: string): (r: Option<string>)
    ensures r.None? <==> QueryParts(ml) == []
    ensures r.Some? ==> SplitOn(r.value, '^') == QueryParts(ml)
  {
    var parts := QueryParts(ml);
    QueryPartsSpec(ml);
    if parts == [] then None
    else
      SplitOnJoin(parts, '^');
      Some(Join(parts, "^"))
  }

  // ------------------------------------------------------------------
  // _extract_identifier
  // ------------------------------------------------------------------

  /** `[0-9a-f]` */
  predicate IsHexDigit(c: char) {
    '0' <= c <= '9' || 'a' <= c <= 'f'
  }

  /** `\b[0-9a-f]{32}\b` matches at `i`: 32 lower-case hex digits, with no word character just before or after. */
  predicate SysIdAt(s: string, i: int) {
    0 <= i && i + 32 <= |s|
    && (forall k :: i <= k < i + 32 ==> IsHexDigit(s[k]))
    && (i == 0 || !IsWordChar(s[i - 1]))
    && (i + 32 == |s| || !IsWordChar(s[i + 32]))
  }

  /** `re.search` from position `from`: the leftmost sys_id at or after `from`. */
  function FindSysId(s: string, from: nat): (r: Option<nat>)
    requires from <= |s|
    ensures r.Some? ==> from <= r.value && SysIdAt(s, r.value) && forall j :: from <= j < r.value ==> !SysIdAt(s, j)
    ensures r.None? ==> forall j :: from <= j ==> !SysIdAt(s, j)
    decreases |s| - from
  {
    if from + 32 > |s| then None
    else if SysIdAt(s, from) then Some(from)
    else FindSysId(s, from + 1)
  }

  /** Words that never make up a CI identifier. */
  const FILLER: set<string> := {
    "show", "get", "find", "the", "of", "for", "a", "an", "me",
    "do", "run", "can", "i", "my", "our", "please", "want", "need",
    "what", "how", "is", "are", "would", "will", "so", "just",
    "details", "detail", "info", "about", "history", "changes",
    "to", "impact", "analysis", "dependency", "tree", "dependencies",
    "relationships", "relationship", "relations", "state", "compare",
    "ci", "configuration", "item", "full", "dry", "review", "change",
    "across", "all", "without", "action", "plan", "validation",
    "validate", "check", "perform", "generate", "report", "give",
    "list", "query", "search", "look", "up", "and", "or", "but",
    "that", "this", "it", "its", "with", "from", "on", "in", "at"
  }

  /** The characters trimmed from both ends of a candidate name. */
  const PUNCTUATION: set<char> := {'.', ',', '!', '?', ';', ':', '"', '\''}

  /** `s.lstrip(chars)` */
  function TrimCharsLeft(s: string, cs: set<char>): (r: string)
    ensures |r| <= |s| && r == s[|s| - |r|..]
    ensures r == [] || r[0] !in cs
    decreases |s|
  {
    if s != [] && s[0] in cs then TrimCharsLeft(s[1..], cs) else s
  }

  /** `s.rstrip(chars)` */
  function TrimCharsRight(s: string, cs: set<char>): (r: string)
    ensures |r| <= |s| && r == s[..|r|]
    ensures r == [] || r[|r| - 1] !in cs
    decreases |s|
  {
    if s != [] && s[|s| - 1] in cs then TrimCharsRight(s[..|s| - 1], cs) else s
  }

  /** `s.strip(chars)`: an infix of `s` whose end characters are not in `cs`. */
  function TrimChars(s: string, cs: set<char>): (r: string)
    ensures r == [] || (r[0] !in cs && r[|r| - 1] !in cs)
    ensures exists i :: OccursAt(s, r, i)
  {
    var l := TrimCharsLeft(s, cs);
    var r := TrimCharsRight(l, cs);
    InfixOfSuffix(s, |s| - |l|, r);
    r
  }

  /** `re.sub(r"[^\w]", "", w).lower()`: the word characters of `w`, lower-cased. */
  function Bare(w: string): (r: string)
    ensures forall j :: 0 <= j < |r| ==> IsWordChar(r[j])
  {
    Lower(Where(w, IsWordChar))
  }

  /** The words of the message, in order, that are not filler once punctuation is dropped. */
  function IdentifierWords(message: string): (r: seq<string>)
    ensures forall i :: 0 <= i < |r| ==> r[i] != [] && forall j :: 0 <= j < |r[i]| ==> !IsSpace(r[i][j])
  {
    var r := Where(Split(message), w => Bare(w) !in FILLER);
    assert forall i :: 0 <= i < |r| ==> r[i] in Split(message);
    r
  }

  /** `_extract_identifier(message)` */
  function Identifier(message: string): (r: Option<string>)
    ensures r.Some? ==> r.value != []
    ensures FindSysId(Lower(message), 0).Some? ==> r.Some? && |r.value| == 32 && forall k :: 0 <= k < 32 ==> IsHexDigit(r.value[k])
    ensures var ml := Lower(message); var f := FindSysId(ml, 0);
      f.Some? ==> r == Some(ml[f.value..f.value + 32])
    ensures FindSysId(Lower(message), 0).None? && r.Some? ==>
      |Split(r.value)| <= 4 && r.value[0] !in PUNCTUATION && r.value[|r.value| - 1] !in PUNCTUATION
  {
    var ml := Lower(message);
    match FindSysId(ml, 0)
    case Some(i) => Some(ml[i..i + 32])
    case None =>
      var candidate := TrimChars(Strip(Join(IdentifierWords(message), " ")), PUNCTUATION);
      if candidate == [] || |Split(candidate)| > 4 then None else Some(candidate)
  }

  /**
   * Without a sys_id, a name is returned exactly when 1 to 4 words that are not
   * filler remain, and it is made of those words, when the first of them does
   * not start and the last does not end with punctuation (inner words may hold
   * any).
   */
  lemma {:induction false} IdentifierName(message: string)
    requires FindSysId(Lower(message), 0).None?
    requires PlainEnds(IdentifierWords(message))
    ensures Identifier(message).Some? <==> 1 <= |IdentifierWords(message)| <= 4
    ensures Identifier(message).Some? ==> Split(Identifier(message).value) == IdentifierWords(message)
  {
    var ws := IdentifierWords(message);
    var j := Join(ws, " ");
    assert TrimChars(Strip(j), PUNCTUATION) == j && Split(j) == ws && (j == [] <==> ws == []) by {
      PlainJoin(ws, PUNCTUATION);
    }
    assert Identifier(message) == if j == [] || |Split(j)| > 4 then None else Some(j) by {
      IdentifierWithoutSysId(message);
    }
    NameOfWords(Identifier(message), j, ws);
  }

  /** How the name Identifier picks relates to the words it is made of. */
  lemma NameOfWords(r: Option<string>, cand: string, ws: seq<string>)
    requires r == if cand == [] || |Split(cand)| > 4 then None else Some(cand)
    requires Split(cand) == ws && (cand == [] <==> ws == [])
    ensures r.Some? <==> 1 <= |ws| <= 4
    ensures r.Some? ==> Split(r.value) == ws
  {
  }

  /** Without a sys_id, the name is the stripped words that are not filler, when there are 1 to 4 of them. */
  lemma IdentifierWithoutSysId(message: string)
    requires FindSysId(Lower(message), 0).None?
    ensures var cand := TrimChars(Strip(Join(IdentifierWords(message), " ")), PUNCTUATION);
      Identifier(message) == if cand == [] || |Split(cand)| > 4 then None else Some(cand)
  {
  }

  /**
   * Without a sys_id, punctuation closing the last word is dropped from the name
   * ("web-server-01." names "web-server-01"), and the words are otherwise kept.
   */
  lemma {:induction false} IdentifierTrailing(message: string, v: string, p: string)
    requires FindSysId(Lower(message), 0).None?
    requires var ws := IdentifierWords(message);
      ws != [] && ws[0][0] !in PUNCTUATION && ws[|ws| - 1] == v + p
    requires v != [] && v[|v| - 1] !in PUNCTUATION
    requires forall k :: 0 <= k < |p| ==> p[k] in PUNCTUATION
    ensures var ws := IdentifierWords(message);
      Identifier(message) == if |ws| > 4 then None else Some(Join(ws[..|ws| - 1] + [v], " "))
  {
    var ws := IdentifierWords(message);
    var cand := Join(ws[..|ws| - 1] + [v], " ");
    assert TrimChars(Strip(Join(ws, " ")), PUNCTUATION) == cand && cand != [] && Split(cand) == ws[..|ws| - 1] + [v] by {
      TrailingJoin(ws, v, p);
    }
    assert Identifier(message) == if cand == [] || |Split(cand)| > 4 then None else Some(cand) by {
      IdentifierWithoutSysId(message);
    }
  }

  /** The words behind IdentifierTrailing: after both strips, the join of `ws` loses exactly the last word's tail `p`. */
  lemma TrailingJoin(ws: seq<string>, v: string, p: string)
    requires forall i :: 0 <= i < |ws| ==> ws[i] != [] && forall k :: 0 <= k < |ws[i]| ==> !IsSpace(ws[i][k])
    requires ws != [] && ws[0][0] !in PUNCTUATION && ws[|ws| - 1] == v + p
    requires v != [] && v[|v| - 1] !in PUNCTUATION
    requires forall k :: 0 <= k < |p| ==> p[k] in PUNCTUATION
    ensures var cand := Join(ws[..|ws| - 1] + [v], " ");
      TrimChars(Strip(Join(ws, " ")), PUNCTUATION) == cand && cand != [] && Split(cand) == ws[..|ws| - 1] + [v]
  {
    TrailingParts(ws, v, p);
    TrimmedTail(Join(ws, " "), Join(ws[..|ws| - 1] + [v], " "), p);
  }

  /** The join of `ws` is the join with the last word cut to `v`, followed by `p`, and both have plain ends. */
  lemma TrailingParts(ws: seq<string>, v: string, p: string)
    requires forall i :: 0 <= i < |ws| ==> ws[i] != [] && forall k :: 0 <= k < |ws[i]| ==> !IsSpace(ws[i][k])
    requires ws != [] && ws[0][0] !in PUNCTUATION && ws[|ws| - 1] == v + p
    requires v != [] && v[|v| - 1] !in PUNCTUATION
    ensures var j := Join(ws, " "); var cand := Join(ws[..|ws| - 1] + [v], " ");
      j == cand + p && j != [] && j[0] !in PUNCTUATION && !IsSpace(j[0])
      && cand != [] && cand[|cand| - 1] !in PUNCTUATION && !IsSpace(cand[|cand| - 1])
      && Split(cand) == ws[..|ws| - 1] + [v]
  {
    var n := |ws|;
    var us := ws[..n - 1] + [v];
    TrailingWords(ws, v, p);
    var j := Join(ws, " ");
    JoinEnds(ws, " ");
    assert j[0] == ws[0][0] && !IsSpace(j[0]);
    var cand := Join(us, " ");
    JoinEnds(us, " ");
    assert cand != [] && cand[|cand| - 1] == v[|v| - 1];
    assert cand[|cand| - 1] !in PUNCTUATION && !IsSpace(cand[|cand| - 1]) by {
      assert us[n - 1] == v;
    }
    assert us[..n - 1] + [us[n - 1] + p] == ws;
    JoinExtendLast(us, p, " ");
    SplitJoin(us);
  }

  /** Both strips of a string that ends in a tail `p` of punctuation leave the part before it. */
  lemma TrimmedTail(j: string, cand: string, p: string)
    requires j == cand + p && j != [] && j[0] !in PUNCTUATION && !IsSpace(j[0])
    requires cand != [] && cand[|cand| - 1] !in PUNCTUATION && !IsSpace(cand[|cand| - 1])
    requires forall k :: 0 <= k < |p| ==> p[k] in PUNCTUATION
    ensures TrimChars(Strip(j), PUNCTUATION) == cand
  {
    assert TrimCharsLeft(j, PUNCTUATION) == j;
    TrimRightSuffix(cand, p, PUNCTUATION);
    assert !IsSpace(j[|j| - 1]) by {
      if p != [] {
        assert j[|j| - 1] == p[|p| - 1];
      } else {
        assert j == cand;
      }
    }
    StripTrimmed(j, cand, PUNCTUATION);
  }

  /** Cutting a tail off the last of some words leaves words. */
  lemma TrailingWords(ws: seq<string>, v: string, p: string)
    requires forall i :: 0 <= i < |ws| ==> ws[i] != [] && forall k :: 0 <= k < |ws[i]| ==> !IsSpace(ws[i][k])
    requires ws != [] && ws[|ws| - 1] == v + p && v != []
    ensures var us := ws[..|ws| - 1] + [v];
      forall i :: 0 <= i < |us| ==> us[i] != [] && forall k :: 0 <= k < |us[i]| ==> !IsSpace(us[i][k])
  {
    var n := |ws|;
    var us := ws[..n - 1] + [v];
    forall i | 0 <= i < |us|
      ensures us[i] != [] && forall k :: 0 <= k < |us[i]| ==> !IsSpace(us[i][k])
    {
      if i == n - 1 {
        assert us[i] == v;
        assert forall k :: 0 <= k < |v| ==> v[k] == ws[n - 1][k];
      } else {
        assert us[i] == ws[i];
      }
    }
  }

  /** The first word does not start, and the last does not end, with punctuation. */
  predicate PlainEnds(ws: seq<string>) {
    ws != [] ==> ws[0] != [] && ws[|ws| - 1] != [] && ws[0][0] !in PUNCTUATION && ws[|ws| - 1][|ws[|ws| - 1]| - 1] !in PUNCTUATION
  }

  /** Words joined by spaces, the first not starting and the last not ending with a character of `cs`, survive both strips whole. */
  lemma PlainJoin(ws: seq<string>, cs: set<char>)
    requires forall i :: 0 <= i < |ws| ==> ws[i] != [] && forall j :: 0 <= j < |ws[i]| ==> !IsSpace(ws[i][j])
    requires ws != [] ==> ws[0][0] !in cs && ws[|ws| - 1][|ws[|ws| - 1]| - 1] !in cs
    ensures TrimChars(Strip(Join(ws, " ")), cs) == Join(ws, " ")
    ensures Split(Join(ws, " ")) == ws
    ensures Join(ws, " ") == [] <==> ws == []
  {
    var j := Join(ws, " ");
    if ws == [] {
      assert j == [];
      StripTrimmed(j, j, cs);
    } else {
      PlainEndsJoin(ws, cs);
      TrimmedWhole(j, cs);
    }
    SplitJoin(ws);
  }

  /** The join of some words starts with the first word's first character and ends with the last word's last. */
  lemma PlainEndsJoin(ws: seq<string>, cs: set<char>)
    requires forall i :: 0 <= i < |ws| ==> ws[i] != [] && forall j :: 0 <= j < |ws[i]| ==> !IsSpace(ws[i][j])
    requires ws != [] && ws[0][0] !in cs && ws[|ws| - 1][|ws[|ws| - 1]| - 1] !in cs
    ensures var j := Join(ws, " ");
      j != [] && j[0] !in cs && j[|j| - 1] !in cs && !IsSpace(j[0]) && !IsSpace(j[|j| - 1])
  {
    var j := Join(ws, " ");
    JoinEnds(ws, " ");
    var last := ws[|ws| - 1];
    assert ws[0][0] == j[0];
    assert last[|last| - 1] == j[|j| - 1];
  }

  /** A string that neither starts nor ends with whitespace or a character of `cs` survives both strips whole. */
  lemma TrimmedWhole(j: string, cs: set<char>)
    requires j != [] && j[0] !in cs && j[|j| - 1] !in cs && !IsSpace(j[0]) && !IsSpace(j[|j| - 1])
    ensures TrimChars(Strip(j), cs) == j
  {
    assert TrimCharsLeft(j, cs) == j;
    assert TrimCharsRight(j, cs) == j;
    StripTrimmed(j, j, cs);
  }

  /** A string with no whitespace at either end strips by `cs` alone. */
  lemma StripTrimmed(j: string, cand: string, cs: set<char>)
    requires j == [] || (!IsSpace(j[0]) && !IsSpace(j[|j| - 1]))
    requires TrimChars(j, cs) == cand
    ensures TrimChars(Strip(j), cs) == cand
  {
    StripUntrimmed(j);
  }

  /** Extending the last part extends the join. */
  lemma {:induction false} JoinExtendLast(us: seq<string>, p: string, sep: string)
    requires us != []
    ensures Join(us[..|us| - 1] + [us[|us| - 1] + p], sep) == Join(us, sep) + p
    decreases |us|
  {
    var ws := us[..|us| - 1] + [us[|us| - 1] + p];
    if |us| > 1 {
      JoinExtendLast(us[1..], p, sep);
      assert ws[1..] == us[1..][..|us| - 2] + [us[1..][|us| - 2] + p];
      assert ws[0] == us[0];
    }
  }

  /** `rstrip` removes exactly a tail of trimmed characters that follows a kept one. */
  lemma {:induction false} TrimRightSuffix(x: string, p: string, cs: set<char>)
    requires x == [] || x[|x| - 1] !in cs
    requires forall k :: 0 <= k < |p| ==> p[k] in cs
    ensures TrimCharsRight(x + p, cs) == x
    decreases |p|
  {
    if p == [] {
      assert x + p == x;
    } else {
      var s := x + p;
      assert s[|s| - 1] == p[|p| - 1];
      assert s[..|s| - 1] == x + p[..|p| - 1];
      TrimRightSuffix(x, p[..|p| - 1], cs);
    }
  }

  // ------------------------------------------------------------------
  // _to_chat_markdown
  // ------------------------------------------------------------------

  /** How one formatter line becomes one markdown line. */
  function ChatLine(line: string): (r: string)
    ensures r == [] <==> line == []
    ensures '\n' in r ==> '\n' in line
  {
    if line == [] then []
    else if StartsWith(line, "  - ") then "- " + line[4..]
    else if StartsWith(line, "       ") then NestedItem(line)
    else if StartsWith(line, "    ") then NestedItem(line)
    else if StartsWith(line, "  ") then "- " + line[2..]
    else line
  }

  /** `"  - " + line.strip()` */
  function NestedItem(line: string): (r: string)
    ensures StartsWith(r, "  - ")
    ensures '\n' in r ==> '\n' in line
  {
    var t := Strip(line);
    var i :| OccursAt(line, t, i);
    InfixChars(line, t, i);
    "  - " + t
  }

  /** An infix has no character its string lacks. */
  lemma InfixChars(s: string, t: string, i: int)
    requires OccursAt(s, t, i)
    ensures forall c :: c in t ==> c in s
  {
    forall c | c in t ensures c in s {
      var k :| 0 <= k < |t| && t[k] == c;
      assert s[i..i + |t|][k] == s[i + k];
    }
  }

  /** Every line converted, in order. */
  function ChatLines(lines: seq<string>): (r: seq<string>)
    ensures |r| == |lines| && forall i :: 0 <= i < |lines| ==> r[i] == ChatLine(lines[i])
  {
    seq(|lines|, i requires 0 <= i < |lines| => ChatLine(lines[i]))
  }

  /** `_to_chat_markdown(lines)`: convert each line, then join with newlines. */
  method ToChatMarkdown(lines: seq<string>) returns (r: string)
    ensures r == Join(ChatLines(lines), "\n")
    ensures lines != [] && (forall i :: 0 <= i < |lines| ==> '\n' !in lines[i]) ==> SplitOn(r, '\n') == ChatLines(lines)
  {
    var out: seq<string> := [];
    for i := 0 to |lines|
      invariant out == ChatLines(lines[..i])
    {
      out := out + [ChatLine(lines[i])];
    }
    assert lines[..|lines|] == lines;
    r := Join(out, "\n");
    if lines != [] && (forall i :: 0 <= i < |lines| ==> '\n' !in lines[i]) {
      SplitOnJoin(out, '\n');
    }
  }

  // ------------------------------------------------------------------
  // Tool selection in the CMDB handler
  // ------------------------------------------------------------------

  /** What a keyword branch does once it is taken. */
  datatype Action =
    | Plain(tool: string)                               // no arguments
    | TypeIfKnown(tool: string)                         // {"ci_type": t} when a type is inferred, else {}
    | TypeOrServer(tool: string, extra: Object)         // {"ci_type": t or "server"} and fixed arguments
    | ClassOrServer(tool: string)                       // {"ci_class": "cmdb_ci_" + (t or "server")}
    | NeedsId(tool: string, key: string, extra: Object) // the identifier under `key` and fixed arguments; no tool without one
    | CountOnly                                         // a one-row search flagged as a count

  /** When a branch is taken: some keyword occurs, or "mcp" and some keyword occur. */
  datatype Guard = AnyOf(keywords: seq<string>) | McpAnd(keywords: seq<string>)

  datatype Branch = Branch(guard: Guard, action: Action)

  /** The `if`/`elif` chain of the handler, in order. */
  const BRANCHES: seq<Branch> := [
    Branch(AnyOf(["health trend", "trend report", "health over time"]), TypeIfKnown("get_cmdb_health_trend_report")),
    Branch(AnyOf(["cmdb health", "cmdb metrics", "data quality", "health metric", "health score", "completeness",
                  "discovery coverage", "health report", "health check", "cmdb analysis", "cmdb report", "cmdb overview"]),
           TypeOrServer("get_cmdb_health_metrics", map[])),
    Branch(McpAnd(["health", "status", "check"]), Plain("check_server_health")),
    Branch(AnyOf(["operational dashboard", "ops dashboard", "dashboard"]), Plain("get_operational_dashboard")),
    Branch(AnyOf(["prometheus", "prom metrics"]), Plain("get_prometheus_metrics")),
    Branch(AnyOf(["capture snapshot", "health snapshot", "take snapshot"]), TypeIfKnown("capture_cmdb_health_snapshot")),
    Branch(AnyOf(["validate metrics", "verify metrics"]), TypeIfKnown("validate_cmdb_health_metrics")),
    Branch(AnyOf(["compliance"]), TypeIfKnown("run_compliance_check")),
    Branch(AnyOf(["reconcile", "reconciliation", "data drift"]), TypeIfKnown("reconcile_cmdb_configuration_data")),
    Branch(AnyOf(["remediate", "remediation", "fix data"]),
           TypeOrServer("remediate_cmdb_data_issues", map["issue_type" := Str("missing_fields"), "action" := Str("preview")])),
    Branch(AnyOf(["cmdb audit", "audit summary", "audit stats"]), Plain("get_audit_summary")),
    Branch(AnyOf(["audit log", "audit entries", "audit history"]), TypeIfKnown("query_audit_log")),
    Branch(AnyOf(["activity log", "recent activity", "recent changes"]), TypeIfKnown("get_ci_activity_log")),
    Branch(AnyOf(["eol", "end of life", "end-of-life", "end of support", "lifecycle"]),
           TypeOrServer("find_stale_configuration_items", map["days" := Int(365)])),
    Branch(AnyOf(["stale", "outdated"]), TypeOrServer("find_stale_configuration_items", map["days" := Int(90)])),
    Branch(AnyOf(["duplicate", "dedup"]), TypeOrServer("find_duplicate_configuration_items", map[])),
    Branch(AnyOf(["dependency tree", "dependencies of"]), NeedsId("query_ci_dependency_tree", "sys_id", map[])),
    Branch(AnyOf(["impact analysis", "impact of", "change impact"]),
           NeedsId("analyze_configuration_item_impact", "sys_id", map["change_type" := Str("modify")])),
    Branch(AnyOf(["relationship type", "relation type"]), Plain("list_relationship_types_available")),
    Branch(AnyOf(["relationship", "relations", "upstream", "downstream"]), NeedsId("query_ci_relationships", "sys_id", map[])),
    Branch(AnyOf(["history of", "change history", "changes to"]), NeedsId("get_configuration_item_history", "sys_id", map[])),
    Branch(AnyOf(["compare state", "compare ci", "state comparison"]),
           NeedsId("compare_configuration_item_state", "sys_id", map["timestamp" := Str("2025-01-01")])),
    Branch(AnyOf(["detail", "info about", "show ci"]), NeedsId("get_configuration_item_details", "identifier", map[])),
    Branch(AnyOf(["ire rule", "identification rule"]), ClassOrServer("get_ire_rules_for_class")),
    Branch(AnyOf(["ire class", "ci class", "classes with ire"]), Plain("list_ci_classes_with_ire")),
    Branch(AnyOf(["validate ci", "validate against ire"]), TypeOrServer("validate_ci_against_ire", map["fields" := Dict(map[])])),
    Branch(AnyOf(["ci type", "ci class", "list types", "what types"]), Plain("list_ci_types")),
    Branch(AnyOf(["count", "how many"]), CountOnly),
    Branch(AnyOf(["health", "status", "analysis", "overview", "summary", "findings", "report", "assess", "evaluate"]),
           TypeOrServer("get_cmdb_health_metrics", map[]))
  ]

  /** Keywords that show the user asked about one CI; without an identifier the handler asks for one. */
  const NEEDS_ID_KEYWORDS: seq<string> := [
    "relationship", "relations", "upstream", "downstream",
    "dependency", "dependencies", "impact",
    "history of", "change history", "changes to",
    "compare state", "compare ci",
    "detail", "info about", "show ci"
  ]

  /** The internal argument that marks a count query; it never reaches the tool. */
  const COUNT_FLAG: string := "_count_only"

  predicate Holds(g: Guard, ml: string) {
    match g
    case AnyOf(kws) => ContainsAny(ml, kws)
    case McpAnd(kws) => Contains(ml, "mcp") && ContainsAny(ml, kws)
  }

  /** The position of the first branch whose guard holds, or `|branches|` when none does. */
  function FirstBranch(branches: seq<Branch>, ml: string): (r: nat)
    ensures r <= |branches|
    ensures forall j :: 0 <= j < r ==> !Holds(branches[j].guard, ml)
    ensures r < |branches| ==> Holds(branches[r].guard, ml)
    decreases |branches|
  {
    if branches == [] then 0
    else if Holds(branches[0].guard, ml) then 0
    else 1 + FirstBranch(branches[1..], ml)
  }

  /** `_infer_ci_type(...) or "server"` */
  function OrServer(ciType: Option<string>): string {
    if ciType.Some? then ciType.value else "server"
  }

  /** The `ci_type` argument of a search: the type, or JSON null when none was inferred. */
  function TypeValue(ciType: Option<string>): Value {
    if ciType.Some? then Str(ciType.value) else Null
  }

  /** No action of the chain can put the count flag into its arguments itself. */
  predicate FlagFree(a: Action) {
    match a
    case TypeOrServer(_, extra) => COUNT_FLAG !in extra
    case NeedsId(_, key, extra) => key != COUNT_FLAG && COUNT_FLAG !in extra
    case _ => true
  }

  /** The tool an action calls when it calls one. */
  function ToolOf(a: Action): string {
    if a.CountOnly? then "search_configuration_items" else a.tool
  }

  /**
   * What the handler reads off a normalised message: its lowercase form (the
   * branch guards test it), whether it mentions an identifier keyword, the
   * inferred CI type, the CI identifier, the name hint, the environment and
   * the missing-field query. Each is a pure function of the message, so
   * computing them up front changes nothing.
   */
  datatype Facts = Facts(
    ml: string,
    mentionsCi: bool,
    ciType: Option<string>,
    identifier: Option<string>,
    hint: Option<string>,
    environment: Option<string>,
    query: Option<string>)

  function Extract(message: string): (f: Facts)
    ensures f.ml == Lower(message) && Consistent(f)
  {
    var ml := Lower(message);
    var ciType := InferCiType(ml);
    Facts(ml, ContainsAny(ml, NEEDS_ID_KEYWORDS), ciType, Identifier(message), NameHint(message, ciType),
      ExtractEnvironment(ml), CustomQuery(ml))
  }

  /** The identifier-keyword flag agrees with the lowercase message. */
  predicate Consistent(f: Facts) {
    f.mentionsCi == ContainsAny(f.ml, NEEDS_ID_KEYWORDS)
  }

  /** The tool and arguments a taken branch yields; None when it needs an identifier and the message has none. */
  function Take(a: Action, f: Facts): (r: Option<(string, Object)>)
    ensures r.None? <==> a.NeedsId? && f.identifier.None?
    ensures r.Some? ==> r.value.0 == ToolOf(a)
    ensures r.Some? && COUNT_FLAG in r.value.1 && FlagFree(a) ==>
      a.CountOnly? && "limit" in r.value.1 && r.value.1["limit"] == Int(1)
  {
    match a
    case Plain(tool) => Some((tool, map[]))
    case TypeIfKnown(tool) =>
      Some((tool, if f.ciType.Some? then map["ci_type" := Str(f.ciType.value)] else map[]))
    case TypeOrServer(tool, extra) => Some((tool, map["ci_type" := Str(OrServer(f.ciType))] + extra))
    case ClassOrServer(tool) => Some((tool, map["ci_class" := Str("cmdb_ci_" + OrServer(f.ciType))]))
    case NeedsId(tool, key, extra) =>
      if f.identifier.Some? then Some((tool, map[key := Str(f.identifier.value)] + extra)) else None
    case CountOnly =>
      Some(("search_configuration_items", map["ci_type" := TypeValue(f.ciType), "limit" := Int(1), COUNT_FLAG := Bool(true)]))
  }

  /** What the handler does: call a tool with arguments (and whether the reply is a count), or ask for a CI identifier. */
  datatype Decision = CallTool(tool: string, arguments: Object, countOnly: bool) | AskForIdentifier

  /** The arguments of the generic CI search. */
  function SearchArguments(f: Facts): (r: Object)
    ensures r.Keys == {"ci_type", "limit"} + (if f.hint.Some? then {"name"} else {})
      + (if f.environment.Some? then {"environment"} else {}) + (if f.query.Some? then {"custom_query"} else {})
    ensures r["limit"] == Int(10) && r["ci_type"] == TypeValue(f.ciType)
    ensures f.hint.Some? ==> r["name"] == Str("*" + f.hint.value + "*")
    ensures f.environment.Some? ==> r["environment"] == Str(f.environment.value)
    ensures f.query.Some? ==> r["custom_query"] == Str(f.query.value)
    ensures COUNT_FLAG !in r
  {
    map["ci_type" := TypeValue(f.ciType), "limit" := Int(10)]
    + (if f.hint.Some? then map["name" := Str("*" + f.hint.value + "*")] else map[])
    + (if f.environment.Some? then map["environment" := Str(f.environment.value)] else map[])
    + (if f.query.Some? then map["custom_query" := Str(f.query.value)] else map[])
  }

  /** No branch gave a tool and no identifier keyword occurs: search when a type or name is found, else the dashboard. */
  function Fallback(f: Facts): (d: Decision)
    ensures d.CallTool? && !d.countOnly && COUNT_FLAG !in d.arguments
    ensures d.tool == "search_configuration_items" <==> f.ciType.Some? || f.hint.Some?
  {
    if f.ciType.Some? || f.hint.Some? then CallTool("search_configuration_items", SearchArguments(f), false)
    else CallTool("get_operational_dashboard", map[], false)
  }

  /** The tool and arguments of the first branch that holds, if it yields any. */
  function Chosen(branches: seq<Branch>, f: Facts): (r: Option<(string, Object)>)
    ensures var i := FirstBranch(branches, f.ml);
      r.None? <==> i == |branches| || (branches[i].action.NeedsId? && f.identifier.None?)
    ensures r.Some? ==> r.value.0 == ToolOf(branches[FirstBranch(branches, f.ml)].action)
    ensures r.Some? && COUNT_FLAG in r.value.1 && FlagFree(branches[FirstBranch(branches, f.ml)].action) ==>
      branches[FirstBranch(branches, f.ml)].action.CountOnly? && "limit" in r.value.1 && r.value.1["limit"] == Int(1)
  {
    var i := FirstBranch(branches, f.ml);
    if i < |branches| then Take(branches[i].action, f) else None
  }

  /**
   * The handler's choice, given its chain of branches: the first branch that
   * yields a call decides; otherwise an identifier keyword makes it ask for an
   * identifier; otherwise the fallback decides. The count flag is popped off
   * the arguments into `countOnly`.
   */
  function DecideOn(branches: seq<Branch>, f: Facts): (d: Decision)
    ensures d.CallTool? ==> COUNT_FLAG !in d.arguments
    ensures d.AskForIdentifier? ==> f.mentionsCi
  {
    var chosen := Chosen(branches, f);
    if chosen.Some? then
      CallTool(chosen.value.0, chosen.value.1 - {COUNT_FLAG}, COUNT_FLAG in chosen.value.1)
    else if f.mentionsCi then AskForIdentifier
    else Fallback(f)
  }

  /** The handler's choice for a normalised message. */
  function Decide(message: string): (d: Decision)
    ensures d.CallTool? ==> COUNT_FLAG !in d.arguments
  {
    DecideOn(BRANCHES, Extract(message))
  }

  /** The CMDB handler: the description, or the title when the description is empty, normalised and decided on. */
  function Handle(task: Task): (d: Decision)
    ensures d.CallTool? ==> COUNT_FLAG !in d.arguments
  {
    Decide(Normalize(if task.description != [] then task.description else task.title))
  }

  /** When the first branch that holds yields a call, that call is the decision. */
  lemma TakenBranchDecides(branches: seq<Branch>, f: Facts)
    ensures var i := FirstBranch(branches, f.ml);
      var d := DecideOn(branches, f);
      i < |branches| && (!branches[i].action.NeedsId? || f.identifier.Some?) ==>
        d.CallTool? && d.tool == ToolOf(branches[i].action)
  {
  }

  /**
   * The handler asks for an identifier exactly when an identifier keyword
   * occurs and either no branch holds or the first one that holds needs an
   * identifier the message does not carry.
   */
  lemma AskIff(branches: seq<Branch>, f: Facts)
    ensures var i := FirstBranch(branches, f.ml);
      DecideOn(branches, f) == AskForIdentifier <==>
        f.mentionsCi
        && (i == |branches| || (branches[i].action.NeedsId? && f.identifier.None?))
  {
  }

  /**
   * When no branch holds and no identifier keyword occurs, the handler searches
   * if it found a CI type or a name, and shows the dashboard otherwise.
   */
  lemma NoBranchFallsBack(branches: seq<Branch>, f: Facts)
    requires FirstBranch(branches, f.ml) == |branches| && !f.mentionsCi
    ensures var d := DecideOn(branches, f);
      d.CallTool? && !d.countOnly
      && (f.ciType.None? && f.hint.None? ==> d == CallTool("get_operational_dashboard", map[], false))
      && (f.ciType.Some? || f.hint.Some? ==> d.tool == "search_configuration_items" && d.arguments["limit"] == Int(10))
  {
  }

  /** When the branch taken cannot set the count flag itself, only the count branch answers with a count. */
  lemma CountFromCountBranch(branches: seq<Branch>, f: Facts)
    requires var i := FirstBranch(branches, f.ml); i < |branches| ==> FlagFree(branches[i].action)
    ensures var d := DecideOn(branches, f);
      var i := FirstBranch(branches, f.ml);
      d.CallTool? && d.countOnly ==> i < |branches| && branches[i].action.CountOnly?
  {
  }

  /** A count is asked of the search tool, for a single row. */
  lemma CountOnlySearch(branches: seq<Branch>, f: Facts)
    requires var i := FirstBranch(branches, f.ml); i < |branches| ==> FlagFree(branches[i].action)
    ensures var d := DecideOn(branches, f);
      d.CallTool? && d.countOnly ==>
        d.tool == "search_configuration_items" && "limit" in d.arguments && d.arguments["limit"] == Int(1)
  {
    CountFromCountBranch(branches, f);
    PopKeepsLimit(Chosen(branches, f));
  }

  /** Popping the count flag keeps the `limit` argument. */
  lemma PopKeepsLimit(c: Option<(string, Object)>)
    ensures c.Some? && "limit" in c.value.1 ==>
      "limit" in c.value.1 - {COUNT_FLAG} && (c.value.1 - {COUNT_FLAG})["limit"] == c.value.1["limit"]
  {
    assert |"limit"| != |COUNT_FLAG|;
  }

  /** Every branch of the handler's chain is free of the count flag. */
  lemma BranchesFlagFree()
    ensures forall i :: 0 <= i < |BRANCHES| ==> FlagFree(BRANCHES[i].action)
  {
  }

  /** In the handler, only the count branch answers with a count, and it asks the search for a single row. */
  lemma CountQuery(f: Facts)
    ensures var d := DecideOn(BRANCHES, f);
      d.CallTool? && d.countOnly ==>
        d.tool == "search_configuration_items" && "limit" in d.arguments && d.arguments["limit"] == Int(1)
  {
    var i := FirstBranch(BRANCHES, f.ml);
    assert i < |BRANCHES| ==> FlagFree(BRANCHES[i].action) by {
      BranchesFlagFree();
    }
    CountOnlySearch(BRANCHES, f);
  }

  /** A trend request gets the trend report, even though it mentions health as well. */
  lemma TrendBeforeHealth(f: Facts)
    requires ContainsAny(f.ml, ["health trend", "trend report", "health over time"])
    ensures DecideOn(BRANCHES, f).CallTool? && DecideOn(BRANCHES, f).tool == "get_cmdb_health_trend_report"
  {
    assert BRANCHES[0].guard == AnyOf(["health trend", "trend report", "health over time"]);
    assert FirstBranch(BRANCHES, f.ml) == 0;
    TakenBranchDecides(BRANCHES, f);
  }

  /** A string that contains `w` contains every infix of `w`. */
  lemma {:induction false} ContainsWithin(s: string, w: string, b: string, off: int)
    requires Contains(s, w) && OccursAt(w, b, off)
    ensures Contains(s, b)
  {
    ContainsIff(s, w);
    var i :| OccursAt(s, w, i);
    forall j | 0 <= j < |b| ensures s[i + off + j] == b[j] {
      assert s[i + off + j] == w[off + j];
    }
    assert OccursAt(s, b, i + off);
    ContainsIff(s, b);
  }

  /** Every keyword of the dependency and impact branches contains an identifier keyword. */
  lemma DependencyImpactNeedId(ml: string, kw: string)
    requires kw in ["dependency tree", "dependencies of", "impact analysis", "impact of", "change impact"]
    requires Contains(ml, kw)
    ensures ContainsAny(ml, NEEDS_ID_KEYWORDS)
  {
    var n: string;
    if kw == "dependency tree" {
      n := "dependency";
      ContainsWithin(ml, kw, n, 0);
    } else if kw == "dependencies of" {
      n := "dependencies";
      ContainsWithin(ml, kw, n, 0);
    } else if kw == "change impact" {
      n := "impact";
      ContainsWithin(ml, kw, n, 7);
    } else {
      n := "impact";
      ContainsWithin(ml, kw, n, 0);
    }
    assert n in NEEDS_ID_KEYWORDS;
  }

  /** The guards of the branches that need an identifier, but the comparison one, contain an identifier keyword. */
  lemma NeedsIdGuard(ml: string, i: nat)
    requires i < |BRANCHES| && BRANCHES[i].action.NeedsId? && BRANCHES[i].action.tool != "compare_configuration_item_state"
    requires Holds(BRANCHES[i].guard, ml)
    ensures ContainsAny(ml, NEEDS_ID_KEYWORDS)
  {
    var kws := BRANCHES[i].guard.keywords;
    var k :| 0 <= k < |kws| && Contains(ml, kws[k]);
    if i == 16 || i == 17 {
      DependencyImpactNeedId(ml, kws[k]);
    } else {
      assert kws[k] in NEEDS_ID_KEYWORDS;
    }
  }

  /**
   * A request the relationship, dependency, impact, history or detail branch
   * takes, but without an identifier, is answered by asking for one.
   */
  lemma NeedsIdBranchAsks(f: Facts)
    requires var i := FirstBranch(BRANCHES, f.ml);
      i < |BRANCHES| && BRANCHES[i].action.NeedsId? && BRANCHES[i].action.tool != "compare_configuration_item_state"
    requires f.identifier.None? && Consistent(f)
    ensures DecideOn(BRANCHES, f) == AskForIdentifier
  {
    var i := FirstBranch(BRANCHES, f.ml);
    assert ContainsAny(f.ml, NEEDS_ID_KEYWORDS) by {
      NeedsIdGuard(f.ml, i);
    }
    AskIff(BRANCHES, f);
  }
}
