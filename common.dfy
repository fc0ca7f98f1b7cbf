/**
 * Value types and string/list helpers shared by every component of the
 * orchestrator model: Python's `str.strip`, `str.lower`, substring tests,
 * the bounded-history trims, the "newest `limit` records" slice, and
 * lexicographic ordering of identifiers for the sorted views.
 */
module Common {

  datatype Option<T> = None | Some(value: T)

  /** A Python call that either returns a value or raises; `Err` carries the exception's kind or message. */
  datatype Result<T, E> = Ok(value: T) | Err(error: E)

  // ------------------------------------------------------------------
  // Whitespace, strip and blank checks
  // ------------------------------------------------------------------

  /**
   * The ASCII characters Python's `str.strip()`, `str.split()`, `str.isspace()`
   * and `re`'s `\s` treat as whitespace: \t \n \v \f \r, the separators
   * \x1c to \x1f, and space.
   */
  predicate IsSpace(c: char) {
    ('\t' <= c <= '\r') || ('\U{1C}' <= c <= ' ')
  }

  /** `s.lstrip()` */
  function TrimLeft(s: string): (r: string)
    ensures |r| <= |s| && r == s[|s| - |r|..]
    ensures r == [] || !IsSpace(r[0])
    ensures forall i :: 0 <= i < |s| - |r| ==> IsSpace(s[i])
  {
    if s != [] && IsSpace(s[0]) then TrimLeft(s[1..]) else s
  }

  /** `s.rstrip()` */
  function TrimRight(s: string): (r: string)
    ensures |r| <= |s| && r == s[..|r|]
    ensures r == [] || !IsSpace(r[|r| - 1])
    ensures forall i :: |r| <= i < |s| ==> IsSpace(s[i])
  {
    if s != [] && IsSpace(s[|s| - 1]) then TrimRight(s[..|s| - 1]) else s
  }

  /** `s.strip()`: the longest infix of `s` that neither starts nor ends with whitespace. */
  function Strip(s: string): (r: string)
    ensures r == [] || (!IsSpace(r[0]) && !IsSpace(r[|r| - 1]))
    ensures exists i :: (OccursAt(s, r, i)
                         && (forall j :: 0 <= j < i ==> IsSpace(s[j]))
                         && (forall j :: i + |r| <= j < |s| ==> IsSpace(s[j])))
  {
    var l := TrimLeft(s);
    var r := TrimRight(l);
    InfixOfSuffix(s, |s| - |l|, r);
    r
  }

  /** A prefix of a suffix of `s` occurs in `s` where the suffix starts. */
  lemma InfixOfSuffix(s: string, off: int, p: string)
    requires 0 <= off <= |s| && |p| <= |s| - off && p == s[off..][..|p|]
    ensures OccursAt(s, p, off)
  {
    assert s[off..][..|p|] == s[off..off + |p|];
  }

  /** `not s.strip()` */
  predicate IsBlank(s: string) {
    Strip(s) == []
  }

  /** A string is blank exactly when every character of it is whitespace. */
  lemma BlankIffAllSpace(s: string)
    ensures IsBlank(s) <==> forall i :: 0 <= i < |s| ==> IsSpace(s[i])
  {
  }

  /** A stripped string is its own strip, so validators that store `v.strip()` store a stripped value. */
  lemma StripIdempotent(s: string)
    ensures Strip(Strip(s)) == Strip(s)
  {
    var r := Strip(s);
    if r != [] {
      assert TrimLeft(r) == r;
      assert TrimRight(r) == r;
    }
  }

  /** `stripped = v.strip(); if not stripped: raise ...; return stripped` */
  function StripNonBlank(v: string): (r: Option<string>)
    ensures r.Some? <==> !IsBlank(v)
    ensures r.Some? ==> r.value == Strip(v) && r.value != []
  {
    var t := Strip(v);
    if t == [] then None else Some(t)
  }

  // ------------------------------------------------------------------
  // Case folding and substrings
  // ------------------------------------------------------------------

  /** `c.lower()` on ASCII letters. */
  function LowerChar(c: char): (r: char)
    ensures 'A' <= c <= 'Z' ==> 'a' <= r <= 'z' && r as int == c as int + 32
    ensures !('A' <= c <= 'Z') ==> r == c
  {
    if 'A' <= c <= 'Z' then (c as int + 32) as char else c
  }

  /** `s.lower()` on ASCII letters. */
  function Lower(s: string): (r: string)
    ensures |r| == |s| && forall i :: 0 <= i < |s| ==> r[i] == LowerChar(s[i])
  {
    seq(|s|, i requires 0 <= i < |s| => LowerChar(s[i]))
  }

  predicate StartsWith<T(==)>(s: seq<T>, p: seq<T>) {
    |p| <= |s| && s[..|p|] == p
  }

  predicate EndsWith<T(==)>(s: seq<T>, p: seq<T>) {
    |p| <= |s| && s[|s| - |p|..] == p
  }

  /** `p` occurs in `s` starting at index `i`. */
  predicate OccursAt(s: string, p: string, i: int) {
    0 <= i && i + |p| <= |s| && s[i..i + |p|] == p
  }

  /** Python's `p in s` for strings, computed by scanning. */
  predicate Contains(s: string, p: string)
    decreases |s|
  {
    StartsWith(s, p) || (s != [] && Contains(s[1..], p))
  }

  /** The scanning test agrees with "occurs at some index". */
  lemma {:induction false} ContainsIff(s: string, p: string)
    ensures Contains(s, p) <==> exists i :: OccursAt(s, p, i)
    decreases |s|
  {
    if StartsWith(s, p) {
      assert OccursAt(s, p, 0);
    } else if s != [] {
      ContainsIff(s[1..], p);
      if Contains(s[1..], p) {
        var i :| OccursAt(s[1..], p, i);
        assert s[1..][i..i + |p|] == s[i + 1..i + 1 + |p|];
        assert OccursAt(s, p, i + 1);
      }
      if exists i :: OccursAt(s, p, i) {
        var i :| OccursAt(s, p, i);
        assert i != 0;
        assert s[1..][i - 1..i - 1 + |p|] == s[i..i + |p|];
        assert OccursAt(s[1..], p, i - 1);
      }
    }
  }

  /** `any(kw in s for kw in kws)` */
  predicate ContainsAny(s: string, kws: seq<string>) {
    exists k :: 0 <= k < |kws| && Contains(s, kws[k])
  }

  // ------------------------------------------------------------------
  // Bounded histories and "newest first" queries
  // ------------------------------------------------------------------

  /**
   * The trim every bounded history applies after an append:
   * `if len(h) > max: h = h[len(h) - max:]` (or `h[-max:]` with a positive max).
   */
  function KeepNewest<T>(h: seq<T>, max: int): (r: seq<T>)
    ensures |r| <= |h| && r == h[|h| - |r|..]
    ensures |h| <= max ==> r == h
    ensures |h| > max ==> |r| == (if max < 0 then 0 else max)
  {
    if |h| <= max then h else if max <= 0 then [] else h[|h| - max..]
  }

  /** Appending to a history bounded by a positive `max` keeps it within `max` and keeps the new item last. */
  lemma KeepNewestAppend<T>(h: seq<T>, x: T, max: int)
    requires 0 < max && |h| <= max
    ensures var r := KeepNewest(h + [x], max);
      |r| <= max && |r| > 0 && r[|r| - 1] == x && r[..|r| - 1] == h[|h| + 1 - |r|..]
  {
  }

  /** Trimming after every append keeps the same items as trimming once after all of them. */
  lemma KeepNewestAbsorbs<T>(h: seq<T>, t: seq<T>, max: int)
    ensures KeepNewest(KeepNewest(h, max) + t, max) == KeepNewest(h + t, max)
  {
    var k := KeepNewest(h, max);
    assert k + t == (h + t)[|h| - |k|..];
  }

  /**
   * Python's `xs[-limit:] if limit < len(xs) else xs`, as written: a positive
   * limit keeps the newest `limit` items, limit 0 keeps everything (`xs[-0:]` is
   * `xs[0:]`), and a negative limit drops the oldest `-limit` items.
   */
  function PyTail<T>(xs: seq<T>, limit: int): (r: seq<T>)
    ensures |r| <= |xs| && r == xs[|xs| - |r|..]
  {
    if limit >= |xs| then xs
    else if limit > 0 then xs[|xs| - limit..]
    else if limit == 0 then xs
    else if -limit >= |xs| then []
    else xs[-limit..]
  }

  /** The size of the slice, per sign of the limit. */
  lemma PyTailLength<T>(xs: seq<T>, limit: int)
    ensures 0 < limit ==> |PyTail(xs, limit)| == if limit < |xs| then limit else |xs|
    ensures limit == 0 ==> PyTail(xs, limit) == xs
    ensures limit < 0 ==> |PyTail(xs, limit)| == if -limit >= |xs| then 0 else |xs| + limit
  {
  }

  /** `list(reversed(s))` */
  function Reverse<T>(s: seq<T>): (r: seq<T>)
    ensures |r| == |s| && forall i :: 0 <= i < |s| ==> r[i] == s[|s| - 1 - i]
  {
    seq(|s|, i requires 0 <= i < |s| => s[|s| - 1 - i])
  }

  /** `recent = xs[-limit:] if limit < len(xs) else xs; return list(reversed(recent))` */
  function NewestFirst<T>(xs: seq<T>, limit: int): seq<T> {
    Reverse(PyTail(xs, limit))
  }

  /**
   * How many of `n` items `xs[-limit:] if limit < len(xs) else xs` keeps: the
   * newest `min(limit, n)` for a positive limit, all of them for a zero limit,
   * and all but the oldest `-limit` for a negative one.
   */
  function SliceLength(n: nat, limit: int): nat {
    if limit >= n || limit == 0 then n
    else if limit > 0 then limit
    else if -limit >= n then 0
    else n + limit
  }

  /**
   * What the "newest first" queries return: the items the slice keeps, the
   * very newest at index 0.
   */
  lemma NewestFirstSpec<T>(xs: seq<T>, limit: int)
    ensures var r := NewestFirst(xs, limit);
      |r| == SliceLength(|xs|, limit) &&
      forall i :: 0 <= i < |r| ==> r[i] == xs[|xs| - 1 - i]
  {
    PyTailLength(xs, limit);
  }

  /** A zero limit does not limit: every item comes back, newest first. */
  lemma NewestFirstZeroLimit<T>(xs: seq<T>)
    ensures NewestFirst(xs, 0) == Reverse(xs)
  {
  }

  // ------------------------------------------------------------------
  // Filtering and counting
  // ------------------------------------------------------------------

  /** Sum of a sequence of naturals. */
  function Sum(s: seq<nat>): nat {
    if s == [] then 0 else s[0] + Sum(s[1..])
  }

  lemma SumAppend(a: seq<nat>, b: seq<nat>)
    ensures Sum(a + b) == Sum(a) + Sum(b)
  {
    if a == [] {
      assert a + b == b;
    } else {
      assert (a + b)[1..] == a[1..] + b;
      SumAppend(a[1..], b);
    }
  }

  /** `[x for x in s if keep(x)]` */
  function Where<T(!new)>(s: seq<T>, keep: T -> bool): (r: seq<T>)
    ensures |r| <= |s|
    ensures forall x :: x in r <==> x in s && keep(x)
    decreases |s|
  {
    if s == [] then []
    else
      var rest := Where(s[..|s| - 1], keep);
      var last := s[|s| - 1];
      assert s == s[..|s| - 1] + [last];
      if keep(last) then rest + [last] else rest
  }

  /** The comprehension keeps the order of its input: a new last item that passes is the last of the result. */
  lemma WhereAppend<T(!new)>(s: seq<T>, x: T, keep: T -> bool)
    ensures Where(s + [x], keep) == Where(s, keep) + (if keep(x) then [x] else [])
  {
    assert (s + [x])[..|s|] == s;
  }

  /** The values stored under `ks`, in that order: `[m[k] for k in ks]`. */
  function ValuesAt<K, V>(m: map<K, V>, ks: seq<K>): (r: seq<V>)
    requires forall i :: 0 <= i < |ks| ==> ks[i] in m
    ensures |r| == |ks| && forall i :: 0 <= i < |ks| ==> r[i] == m[ks[i]]
  {
    seq(|ks|, i requires 0 <= i < |ks| => m[ks[i]])
  }

  /** The first key's value comes first. */
  lemma ValuesAtCons<K, V>(m: map<K, V>, ks: seq<K>)
    requires ks != [] && forall i :: 0 <= i < |ks| ==> ks[i] in m
    ensures ValuesAt(m, ks) == [m[ks[0]]] + ValuesAt(m, ks[1..])
  {
  }

  /** A new first item that passes is the first of the result. */
  lemma {:induction false} WherePrepend<T(!new)>(x: T, s: seq<T>, keep: T -> bool)
    ensures Where([x] + s, keep) == (if keep(x) then [x] else []) + Where(s, keep)
    decreases |s|
  {
    if s == [] {
      WhereAppend([], x, keep);
      assert [] + [x] == [x] + s;
    } else {
      var init, last := s[..|s| - 1], s[|s| - 1];
      var head, tail := if keep(x) then [x] else [], if keep(last) then [last] else [];
      assert s == init + [last];
      calc {
        Where([x] + s, keep);
        { assert [x] + s == ([x] + init) + [last]; }
        Where(([x] + init) + [last], keep);
        { WhereAppend([x] + init, last, keep); }
        Where([x] + init, keep) + tail;
        { WherePrepend(x, init, keep); }
        (head + Where(init, keep)) + tail;
        head + (Where(init, keep) + tail);
        { WhereAppend(init, last, keep); }
        head + Where(s, keep);
      }
    }
  }

  /** Filtering twice is filtering once by both conditions. */
  lemma {:induction false} WhereWhere<T(!new)>(s: seq<T>, f: T -> bool, g: T -> bool)
    ensures Where(Where(s, f), g) == Where(s, x => f(x) && g(x))
    decreases |s|
  {
    if s != [] {
      var init := s[..|s| - 1];
      var last := s[|s| - 1];
      WhereWhere(init, f, g);
      assert s == init + [last];
      WhereAppend(init, last, f);
      if f(last) {
        WhereAppend(Where(init, f), last, g);
      }
    }
  }

  /**
   * What a seen-set loop reports as repeats (`if x in seen: report(x); seen.add(x)`):
   * every item some earlier item equals, in order.
   */
  function Repeated<T(==)>(xs: seq<T>): (r: seq<T>)
    ensures |r| <= |xs|
    decreases |xs|
  {
    if xs == [] then []
    else
      var init := xs[..|xs| - 1];
      Repeated(init) + (if xs[|xs| - 1] in init then [xs[|xs| - 1]] else [])
  }

  /** `x` occurs at least twice in `xs`. */
  ghost predicate Repeats<T>(xs: seq<T>, x: T) {
    exists i, j :: 0 <= j < i < |xs| && xs[i] == x && xs[j] == x
  }

  /** Every repeated item is reported and nothing else is; nothing is reported exactly when all items differ. */
  lemma RepeatedIff<T>(xs: seq<T>)
    ensures forall x :: x in Repeated(xs) <==> Repeats(xs, x)
    ensures Repeated(xs) == [] <==> forall i, j :: 0 <= j < i < |xs| ==> xs[i] != xs[j]
  {
    RepeatedMembers(xs);
    if Repeated(xs) != [] {
      assert Repeated(xs)[0] in Repeated(xs);
    }
    if exists i, j :: 0 <= j < i < |xs| && xs[i] == xs[j] {
      var i, j :| 0 <= j < i < |xs| && xs[i] == xs[j];
      assert Repeats(xs, xs[i]);
    }
  }

  /** The reported items are exactly the repeated ones. */
  lemma {:induction false} RepeatedMembers<T>(xs: seq<T>)
    ensures forall x :: x in Repeated(xs) <==> Repeats(xs, x)
    decreases |xs|
  {
    if xs != [] {
      var n := |xs| - 1;
      var init := xs[..n];
      RepeatedMembers(init);
      forall x ensures Repeats(xs, x) <==> Repeats(init, x) || (x == xs[n] && x in init) {
        RepeatsLast(xs, x);
      }
    }
  }

  /** An item repeats in `xs` when it repeats before the last item, or is the last item and occurs before it. */
  lemma RepeatsLast<T>(xs: seq<T>, x: T)
    requires xs != []
    ensures var init := xs[..|xs| - 1];
      Repeats(xs, x) <==> Repeats(init, x) || (x == xs[|xs| - 1] && x in init)
  {
    var n := |xs| - 1;
    var init := xs[..n];
    if Repeats(xs, x) {
      var i, j :| 0 <= j < i < |xs| && xs[i] == x && xs[j] == x;
      if i < n {
        assert init[i] == xs[i] && init[j] == xs[j];
        assert Repeats(init, x);
      } else {
        assert init[j] == xs[n];
      }
    }
    if Repeats(init, x) {
      var i, j :| 0 <= j < i < |init| && init[i] == x && init[j] == x;
      assert xs[i] == init[i] && xs[j] == init[j];
    }
    if x == xs[n] && x in init {
      var j :| 0 <= j < |init| && init[j] == x;
      assert xs[j] == x;
    }
  }

  /** `sum(len(v) for v in m.values())` */
  ghost function TotalLength<K, V>(m: map<K, seq<V>>): nat
    decreases |m.Keys|
  {
    if m == map[] then 0
    else
      var k :| k in m;
      |m[k]| + TotalLength(m - {k})
  }

  /** The sum does not depend on which entry is counted first. */
  lemma {:induction false} TotalLengthRemove<K, V>(m: map<K, seq<V>>, k: K)
    requires k in m
    ensures TotalLength(m) == |m[k]| + TotalLength(m - {k})
    decreases |m.Keys|
  {
    var k' :| k' in m && TotalLength(m) == |m[k']| + TotalLength(m - {k'});
    if k' != k {
      var rest := m - {k'};
      assert k in rest && |rest.Keys| < |m.Keys|;
      TotalLengthRemove(rest, k);
      var other := m - {k};
      assert k' in other && |other.Keys| < |m.Keys|;
      TotalLengthRemove(other, k');
      assert rest - {k} == other - {k'};
    }
  }

  lemma TotalLengthUpdate<K, V>(m: map<K, seq<V>>, k: K, v: seq<V>)
    ensures TotalLength(m[k := v]) == TotalLength(m) - (if k in m then |m[k]| else 0) + |v|
  {
    var updated := m[k := v];
    TotalLengthRemove(updated, k);
    assert updated - {k} == m - {k};
    if k in m {
      TotalLengthRemove(m, k);
    } else {
      assert m - {k} == m;
    }
  }

  lemma TotalLengthDelete<K, V>(m: map<K, seq<V>>, k: K)
    ensures TotalLength(m - {k}) == TotalLength(m) - (if k in m then |m[k]| else 0)
  {
    if k in m {
      TotalLengthRemove(m, k);
    } else {
      assert m - {k} == m;
    }
  }

  // ------------------------------------------------------------------
  // Lexicographic order of identifiers (Python's `<` on str)
  // ------------------------------------------------------------------

  /** `a < b` for Python strings: code-point lexicographic order. */
  predicate Lt(a: string, b: string) {
    if b == [] then false
    else if a == [] then true
    else if a[0] != b[0] then a[0] < b[0]
    else Lt(a[1..], b[1..])
  }

  lemma LtIrreflexive(a: string)
    ensures !Lt(a, a)
  {
  }

  lemma {:induction false} LtTransitive(a: string, b: string, c: string)
    requires Lt(a, b) && Lt(b, c)
    ensures Lt(a, c)
  {
    if a != [] && a[0] == b[0] && b[0] == c[0] {
      LtTransitive(a[1..], b[1..], c[1..]);
    }
  }

  lemma {:induction false} LtTotal(a: string, b: string)
    requires a != b
    ensures Lt(a, b) || Lt(b, a)
  {
    if a != [] && b != [] && a[0] == b[0] {
      assert a == [a[0]] + a[1..] && b == [b[0]] + b[1..];
      LtTotal(a[1..], b[1..]);
    }
  }

  lemma {:induction false} LtAsymmetric(a: string, b: string)
    requires Lt(a, b)
    ensures !Lt(b, a)
  {
    if a != [] && b != [] && a[0] == b[0] {
      LtAsymmetric(a[1..], b[1..]);
    }
  }

  /** No element occurs twice. */
  predicate Distinct<T(==)>(s: seq<T>) {
    forall i, j :: 0 <= i < j < |s| ==> s[i] != s[j]
  }

  /** Strictly increasing, hence also free of duplicates. */
  predicate StrictlySorted(s: seq<string>) {
    forall i, j :: 0 <= i < j < |s| ==> Lt(s[i], s[j])
  }

  lemma StrictlySortedDistinct(s: seq<string>, i: int, j: int)
    requires StrictlySorted(s) && 0 <= i < |s| && 0 <= j < |s| && i != j
    ensures s[i] != s[j]
  {
    if i < j { LtIrreflexive(s[i]); } else { LtIrreflexive(s[j]); }
  }

  /** `m` is the least member of `s`. */
  predicate IsLeast(m: string, s: set<string>) {
    m in s && forall k :: k in s && k != m ==> Lt(m, k)
  }

  /** Every non-empty finite set of strings has a least element. */
  lemma {:induction false} MinExists(s: set<string>)
    requires s != {}
    ensures exists m :: IsLeast(m, s)
    decreases |s|
  {
    var x :| x in s;
    if s == {x} {
      assert IsLeast(x, s);
    } else {
      var rest := s - {x};
      MinExists(rest);
      var m :| IsLeast(m, rest);
      MinWithOne(x, rest, m);
      assert rest + {x} == s;
    }
  }

  /** Adding one element to a set with a least element: the smaller of the two is least. */
  lemma MinWithOne(x: string, rest: set<string>, m: string)
    requires x !in rest && IsLeast(m, rest)
    ensures IsLeast(if Lt(x, m) then x else m, rest + {x})
  {
    if Lt(x, m) {
      forall k | k in rest + {x} && k != x ensures Lt(x, k) {
        if k != m { LtTransitive(x, m, k); }
      }
    } else {
      LtTotal(x, m);
    }
  }

  /** Two strictly increasing sequences with the same members are equal. */
  lemma {:induction false} SortedUnique(a: seq<string>, b: seq<string>)
    requires StrictlySorted(a) && StrictlySorted(b)
    requires forall k :: k in a <==> k in b
    ensures a == b
    decreases |a|
  {
    SortedCard(a);
    SortedCard(b);
    assert (set k | k in a) == (set k | k in b);
    if a != [] {
      assert a[0] in b && b[0] in a;
      if a[0] != b[0] {
        var i :| 0 <= i < |a| && a[i] == b[0];
        var j :| 0 <= j < |b| && b[j] == a[0];
        LtAsymmetric(a[0], a[i]);
      }
      forall k ensures k in a[1..] <==> k in b[1..] {
        if k in a[1..] {
          var i :| 1 <= i < |a| && a[i] == k;
          StrictlySortedDistinct(a, 0, i);
          assert k in b && k != b[0];
        }
        if k in b[1..] {
          var j :| 1 <= j < |b| && b[j] == k;
          StrictlySortedDistinct(b, 0, j);
          assert k in a && k != a[0];
        }
      }
      SortedUnique(a[1..], b[1..]);
      assert a == [a[0]] + a[1..] && b == [b[0]] + b[1..];
    }
  }

  /** A strictly increasing sequence has as many items as it has members. */
  lemma {:induction false} SortedCard(s: seq<string>)
    requires StrictlySorted(s)
    ensures |set k | k in s| == |s|
    decreases |s|
  {
    if s != [] {
      SortedCard(s[1..]);
      assert s[0] !in s[1..] by {
        forall i | 1 <= i < |s| ensures s[i] != s[0] { StrictlySortedDistinct(s, 0, i); }
      }
      assert (set k | k in s) == {s[0]} + (set k | k in s[1..]);
    }
  }

  /** The ascending listing of a finite set of identifiers, as a specification. */
  ghost function SortedOf(keys: set<string>): (r: seq<string>)
    ensures StrictlySorted(r)
    ensures forall k :: k in r <==> k in keys
    decreases |keys|
  {
    if keys == {} then []
    else
      MinExists(keys);
      var m :| IsLeast(m, keys);
      var rest := SortedOf(keys - {m});
      assert forall j :: 0 <= j < |rest| ==> rest[j] in keys - {m};
      [m] + rest
  }

  /** `sorted(keys)`: the given identifiers in ascending order, each once. */
  method SortedKeys(keys: set<string>) returns (r: seq<string>)
    ensures StrictlySorted(r)
    ensures forall k :: k in r <==> k in keys
    ensures r == SortedOf(keys)
  {
    var rest := keys;
    r := [];
    while rest != {}
      invariant rest <= keys
      invariant StrictlySorted(r)
      invariant forall k :: k in r <==> k in keys && k !in rest
      invariant forall i, k :: 0 <= i < |r| && k in rest ==> Lt(r[i], k)
      decreases |rest|
    {
      MinExists(rest);
      var m :| IsLeast(m, rest);
      r := r + [m];
      rest := rest - {m};
    }
    SortedUnique(r, SortedOf(keys));
  }

  // ------------------------------------------------------------------
  // Anchored "one head character, then body characters" patterns
  // ------------------------------------------------------------------

  /** The whole of `v` is one `first` character followed by `rest` characters: `[F][R]*`. */
  predicate HeadTail(v: string, first: char -> bool, rest: char -> bool) {
    |v| >= 1 && first(v[0]) && forall i :: 1 <= i < |v| ==> rest(v[i])
  }

  /**
   * `re.match(r"^[F][R]*$", v)` in Python: `$` matches at the very end and also
   * just before a single final newline, so `v` may carry one trailing "\n".
   */
  predicate DollarMatch(v: string, first: char -> bool, rest: char -> bool) {
    HeadTail(v, first, rest) ||
    (|v| >= 2 && v[|v| - 1] == '\n' && HeadTail(v[..|v| - 1], first, rest))
  }

  /** States of the automaton that recognises `^[F][R]*$`. */
  datatype ScanState = Start | InBody | AfterNewline | Dead

  function ScanStep(st: ScanState, c: char, first: char -> bool, rest: char -> bool): ScanState {
    match st
    case Start => if first(c) then InBody else Dead
    case InBody => if rest(c) then InBody else if c == '\n' then AfterNewline else Dead
    case AfterNewline => Dead
    case Dead => Dead
  }

  function ScanRun(st: ScanState, v: string, first: char -> bool, rest: char -> bool): ScanState
    decreases |v|
  {
    if v == [] then st else ScanRun(ScanStep(st, v[0], first, rest), v[1..], first, rest)
  }

  /** The compiled pattern: run the automaton over `v` and accept in InBody or AfterNewline. */
  function ScanMatch(v: string, first: char -> bool, rest: char -> bool): bool {
    var st := ScanRun(Start, v, first, rest);
    st == InBody || st == AfterNewline
  }

  lemma {:induction false} ScanDeadStays(v: string, first: char -> bool, rest: char -> bool)
    ensures ScanRun(Dead, v, first, rest) == Dead
    decreases |v|
  {
    if v != [] { ScanDeadStays(v[1..], first, rest); }
  }

  /** From InBody the automaton stays in InBody on body characters and accepts one closing newline. */
  lemma {:induction false} ScanFromBody(w: string, first: char -> bool, rest: char -> bool)
    ensures ScanRun(InBody, w, first, rest) == InBody <==> forall i :: 0 <= i < |w| ==> rest(w[i])
    ensures ScanRun(InBody, w, first, rest) == AfterNewline <==>
      |w| >= 1 && w[|w| - 1] == '\n' && !rest('\n') && forall i :: 0 <= i < |w| - 1 ==> rest(w[i])
    decreases |w|
  {
    if w != [] {
      var st := ScanStep(InBody, w[0], first, rest);
      if st == InBody {
        ScanFromBody(w[1..], first, rest);
        assert forall i :: 1 <= i < |w| ==> w[i] == w[1..][i - 1];
      } else if st == AfterNewline {
        if |w| > 1 {
          ScanDeadStays(w[2..], first, rest);
          assert ScanRun(InBody, w, first, rest) == Dead;
        }
      } else {
        ScanDeadStays(w[1..], first, rest);
      }
    }
  }

  /** The automaton accepts exactly the strings the anchored pattern matches. */
  lemma ScanMatchCorrect(v: string, first: char -> bool, rest: char -> bool)
    ensures ScanMatch(v, first, rest) <==> DollarMatch(v, first, rest)
  {
    if v != [] {
      if first(v[0]) {
        var w := v[1..];
        ScanFromBody(w, first, rest);
        assert forall i :: 1 <= i < |v| ==> v[i] == w[i - 1];
        if |v| >= 2 {
          var p := v[..|v| - 1];
          assert forall i :: 1 <= i < |p| ==> p[i] == w[i - 1];
        }
      } else {
        ScanDeadStays(v[1..], first, rest);
      }
    }
  }
}
