/**
 * Splitting strings into words and joining them back: Python's `str.split()`
 * and `re.findall` of one character class are the maximal runs of characters
 * of a class, `sep.join(parts)` glues parts together, and `s.split(sep)`
 * takes a joined string apart again.
 */
module Words {
  import opened Common

  /** The longest prefix of `s` whose characters all satisfy `p`. */
  function TakeWhile(s: string, p: char -> bool): (r: string)
    ensures |r| <= |s| && r == s[..|r|]
    ensures forall i :: 0 <= i < |r| ==> p(r[i])
    ensures |r| < |s| ==> !p(s[|r|])
    decreases |s|
  {
    if s != [] && p(s[0]) then [s[0]] + TakeWhile(s[1..], p) else []
  }

  /** The maximal runs of characters satisfying `p`, left to right. */
  function Tokens(s: string, p: char -> bool): (r: seq<string>)
    ensures forall i :: 0 <= i < |r| ==> r[i] != [] && forall j :: 0 <= j < |r[i]| ==> p(r[i][j])
    decreases |s|
  {
    if s == [] then []
    else if !p(s[0]) then Tokens(s[1..], p)
    else
      var w := TakeWhile(s, p);
      [w] + Tokens(s[|w|..], p)
  }

  /** `c` is not whitespace. */
  predicate NotSpace(c: char) {
    !IsSpace(c)
  }

  /** `s.split()`: the whitespace-separated words of `s`, no empty ones. */
  function Split(s: string): (r: seq<string>)
    ensures forall i :: 0 <= i < |r| ==> r[i] != [] && forall j :: 0 <= j < |r[i]| ==> !IsSpace(r[i][j])
  {
    Tokens(s, NotSpace)
  }

  /** `sep.join(parts)` */
  function Join(parts: seq<string>, sep: string): (r: string)
    decreases |parts|
  {
    if parts == [] then []
    else if |parts| == 1 then parts[0]
    else parts[0] + sep + Join(parts[1..], sep)
  }

  /** `s.split(sep)` for a one-character separator: empty pieces are kept, and there is always one piece. */
  function SplitOn(s: string, sep: char): (r: seq<string>)
    ensures |r| >= 1
    ensures forall i :: 0 <= i < |r| ==> sep !in r[i]
    decreases |s|
  {
    if s == [] then [[]]
    else
      var rest := SplitOn(s[1..], sep);
      if s[0] == sep then [[]] + rest else [[s[0]] + rest[0]] + rest[1..]
  }

  /** `t` occurs in `s` at `i` as a maximal run: the characters just outside it (if any) fail `p`. */
  predicate WholeAt(s: string, t: string, i: int, p: char -> bool) {
    OccursAt(s, t, i) && (i == 0 || !p(s[i - 1])) && (i + |t| == |s| || !p(s[i + |t|]))
  }

  /** Every token is a maximal run of `s`: it is never part of a longer run. */
  lemma {:induction false} TokensWhole(s: string, p: char -> bool)
    ensures forall t :: t in Tokens(s, p) ==> exists i :: WholeAt(s, t, i, p)
    decreases |s|
  {
    if s != [] {
      var rest := if !p(s[0]) then s[1..] else s[|TakeWhile(s, p)|..];
      var off := |s| - |rest|;
      assert rest == s[off..];
      TokensWhole(rest, p);
      forall t | t in Tokens(rest, p) ensures exists i :: WholeAt(s, t, i, p) {
        var j :| WholeAt(rest, t, j, p);
        assert rest[j] == t[0];
        ShiftWhole(s, off, t, j, p);
      }
      if p(s[0]) {
        var w := TakeWhile(s, p);
        assert WholeAt(s, w, 0, p) by {
          assert s[0..|w|] == w;
        }
      }
    }
  }

  /** A maximal run of a suffix that starts at a `p` character is a maximal run of the whole string, when the suffix follows a non-`p` character. */
  lemma ShiftWhole(s: string, off: int, t: string, j: int, p: char -> bool)
    requires 0 < off <= |s| && WholeAt(s[off..], t, j, p)
    requires 0 < j || !p(s[off - 1])
    ensures WholeAt(s, t, off + j, p)
  {
    assert s[off..][j..j + |t|] == s[off + j..off + j + |t|];
  }

  // ------------------------------------------------------------------
  // Round trips
  // ------------------------------------------------------------------

  /** A run of `p` characters followed by a non-`p` character (or nothing) is taken whole. */
  lemma {:induction false} TakeWhileRun(w: string, t: string, p: char -> bool)
    requires forall j :: 0 <= j < |w| ==> p(w[j])
    requires t == [] || !p(t[0])
    ensures TakeWhile(w + t, p) == w
    decreases |w|
  {
    if w != [] {
      assert (w + t)[1..] == w[1..] + t;
      TakeWhileRun(w[1..], t, p);
    }
  }

  /** Runs joined by a separator outside the class are found again, each once, in order. */
  lemma {:induction false} TokensJoin(ws: seq<string>, sep: char, p: char -> bool)
    requires !p(sep)
    requires forall i :: 0 <= i < |ws| ==> ws[i] != [] && forall j :: 0 <= j < |ws[i]| ==> p(ws[i][j])
    ensures Tokens(Join(ws, [sep]), p) == ws
    decreases |ws|
  {
    if |ws| == 1 {
      TakeWhileRun(ws[0], [], p);
      assert ws[0] + [] == ws[0];
    } else if |ws| > 1 {
      var w, rest := ws[0], Join(ws[1..], [sep]);
      var s := w + [sep] + rest;
      assert Join(ws, [sep]) == s;
      TakeWhileRun(w, [sep] + rest, p);
      assert s == w + ([sep] + rest);
      assert s[|w|..] == [sep] + rest;
      assert ([sep] + rest)[1..] == rest;
      TokensJoin(ws[1..], sep, p);
      assert ws == [w] + ws[1..];
    }
  }

  /** Words joined by single spaces split back into the same words. */
  lemma SplitJoin(ws: seq<string>)
    requires forall i :: 0 <= i < |ws| ==> ws[i] != [] && forall j :: 0 <= j < |ws[i]| ==> !IsSpace(ws[i][j])
    ensures Split(Join(ws, " ")) == ws
  {
    TokensJoin(ws, ' ', NotSpace);
  }

  /** A join of non-empty parts starts with the first part's first character and ends with the last part's last. */
  lemma {:induction false} JoinEnds(ws: seq<string>, sep: string)
    requires ws != [] && forall i :: 0 <= i < |ws| ==> ws[i] != []
    ensures var r := Join(ws, sep);
      |r| > 0 && r[0] == ws[0][0] && r[|r| - 1] == ws[|ws| - 1][|ws[|ws| - 1]| - 1]
    decreases |ws|
  {
    if |ws| > 1 {
      JoinEnds(ws[1..], sep);
    }
  }

  /** A string with no whitespace at either end is its own strip. */
  lemma StripUntrimmed(s: string)
    requires s == [] || (!IsSpace(s[0]) && !IsSpace(s[|s| - 1]))
    ensures Strip(s) == s
  {
    if s != [] {
      assert TrimLeft(s) == s;
      assert TrimRight(s) == s;
    }
  }

  /** Words joined by spaces need no stripping. */
  lemma StripJoinedWords(ws: seq<string>)
    requires forall i :: 0 <= i < |ws| ==> ws[i] != [] && forall j :: 0 <= j < |ws[i]| ==> !IsSpace(ws[i][j])
    ensures Strip(Join(ws, " ")) == Join(ws, " ")
  {
    if ws != [] {
      JoinEnds(ws, " ");
    }
    StripUntrimmed(Join(ws, " "));
  }

  /** Splitting a string that starts with a separator-free piece `w` puts `w` in front of the first piece. */
  lemma {:induction false} SplitOnPrefix(w: string, t: string, sep: char)
    requires sep !in w
    ensures SplitOn(w + t, sep) == [w + SplitOn(t, sep)[0]] + SplitOn(t, sep)[1..]
    decreases |w|
  {
    if w == [] {
      var r := SplitOn(t, sep);
      assert w + t == t && w + r[0] == r[0];
      assert [r[0]] + r[1..] == r;
    } else {
      assert (w + t)[1..] == w[1..] + t;
      SplitOnPrefix(w[1..], t, sep);
      assert [w[0]] + (w[1..] + SplitOn(t, sep)[0]) == w + SplitOn(t, sep)[0];
    }
  }

  /** Joining separator-free pieces and splitting again gives the pieces back. */
  lemma {:induction false} SplitOnJoin(parts: seq<string>, sep: char)
    requires parts != [] && forall i :: 0 <= i < |parts| ==> sep !in parts[i]
    ensures SplitOn(Join(parts, [sep]), sep) == parts
    decreases |parts|
  {
    if |parts| == 1 {
      SplitOnPrefix(parts[0], [], sep);
      assert parts[0] + [] == parts[0];
    } else {
      var rest := Join(parts[1..], [sep]);
      assert Join(parts, [sep]) == parts[0] + ([sep] + rest);
      SplitOnPrefix(parts[0], [sep] + rest, sep);
      assert ([sep] + rest)[1..] == rest;
      SplitOnJoin(parts[1..], sep);
      assert SplitOn([sep] + rest, sep) == [[]] + parts[1..];
      assert parts[0] + [] == parts[0];
      assert parts == [parts[0]] + parts[1..];
    }
  }

  /** Splitting and joining again gives the string back. */
  lemma {:induction false} JoinSplitOn(s: string, sep: char)
    ensures Join(SplitOn(s, sep), [sep]) == s
    decreases |s|
  {
    if s != [] {
      var rest := SplitOn(s[1..], sep);
      JoinSplitOn(s[1..], sep);
      if s[0] == sep {
        assert ([[]] + rest)[1..] == rest;
        assert Join([[]] + rest, [sep]) == [] + [sep] + Join(rest, [sep]);
      } else {
        JoinConsChar(s[0], rest, [sep]);
      }
      assert s == [s[0]] + s[1..];
    }
  }

  /** Prepending a character to the first piece prepends it to the join. */
  lemma JoinConsChar(c: char, ps: seq<string>, sep: string)
    requires ps != []
    ensures Join([[c] + ps[0]] + ps[1..], sep) == [c] + Join(ps, sep)
  {
    var qs := [[c] + ps[0]] + ps[1..];
    assert qs[1..] == ps[1..];
    if |ps| > 1 {
      assert [c] + ps[0] + sep + Join(ps[1..], sep) == [c] + (ps[0] + sep + Join(ps[1..], sep));
    }
  }
}
