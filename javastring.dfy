/**
 * The parts of java.lang.String the core relies on: `endsWith`, `contains` and
 * `split` with a one-character delimiter that is not a regular-expression
 * metacharacter (the only way the core calls it, with "/").
 */
module JavaString {

  /** `s.endsWith(suffix)`; every string ends with "". */
  predicate EndsWith(s: string, suffix: string) {
    |suffix| <= |s| && s[|s| - |suffix|..] == suffix
  }

  /** `s.contains(t)`; every string contains "". */
  predicate Contains(s: string, t: string) {
    exists i | 0 <= i <= |s| - |t| :: t <= s[i..]
  }

  lemma ContainsInfix(p: string, t: string, q: string)
    ensures Contains(p + t + q, t)
  {
    assert t <= (p + t + q)[|p|..];
  }

  /** The pieces of `s` between occurrences of `d`, empty pieces included. */
  function RawSplit(s: string, d: char): (parts: seq<string>)
    ensures |parts| >= 1
  {
    if s == [] then [""]
    else
      var rest := RawSplit(s[1..], d);
      if s[0] == d then [""] + rest else [[s[0]] + rest[0]] + rest[1..]
  }

  /** Drops the empty strings at the end of `parts`. */
  function StripTrailingEmpty(parts: seq<string>): seq<string> {
    if parts != [] && parts[|parts| - 1] == "" then StripTrailingEmpty(parts[..|parts| - 1])
    else parts
  }

  /**
   * `s.split(d)`, limit 0: when `d` does not occur the answer is `[s]` (so
   * "" gives [""]); otherwise the pieces between delimiters with the trailing
   * empty pieces removed (so "/" gives []).
   */
  function Split(s: string, d: char): seq<string> {
    if d !in s then [s] else StripTrailingEmpty(RawSplit(s, d))
  }

  /** `String.join(d, parts)`: the reference against which Split is stated. */
  function Join(parts: seq<string>, d: char): string {
    if parts == [] then ""
    else if |parts| == 1 then parts[0]
    else parts[0] + [d] + Join(parts[1..], d)
  }

  /** `s` without the run of `d` characters at its end. */
  function TrimTrailing(s: string, d: char): string {
    if s != [] && s[|s| - 1] == d then TrimTrailing(s[..|s| - 1], d) else s
  }

  ghost predicate Undelimited(parts: seq<string>, d: char) {
    forall p | p in parts :: d !in p
  }

  lemma {:induction false} RawSplitJoin(s: string, d: char)
    ensures Join(RawSplit(s, d), d) == s
    ensures Undelimited(RawSplit(s, d), d)
  {
    if s != [] {
      var rest := RawSplit(s[1..], d);
      RawSplitJoin(s[1..], d);
      if s[0] == d {
        assert ([""] + rest)[1..] == rest;
        assert s == [s[0]] + s[1..];
      } else {
        var parts := [[s[0]] + rest[0]] + rest[1..];
        assert parts[1..] == rest[1..];
        if |rest| == 1 {
          assert s == [s[0]] + rest[0];
        } else {
          assert Join(rest, d) == rest[0] + [d] + Join(rest[1..], d);
          assert s == [s[0]] + s[1..];
        }
        forall p | p in parts ensures d !in p {
          if p == parts[0] {
            assert d !in rest[0];
          } else {
            assert p in rest;
          }
        }
      }
    }
  }

  lemma {:induction false} JoinSnoc(parts: seq<string>, x: string, d: char)
    requires parts != []
    ensures Join(parts + [x], d) == Join(parts, d) + [d] + x
    decreases |parts|
  {
    if |parts| > 1 {
      assert (parts + [x])[1..] == parts[1..] + [x];
      JoinSnoc(parts[1..], x, d);
    }
  }

  /** The string `Join` builds is never shorter than its last part and ends with it. */
  lemma JoinEndsWithLast(parts: seq<string>, d: char)
    requires parts != []
    ensures EndsWith(Join(parts, d), parts[|parts| - 1])
  {
    if |parts| > 1 {
      var init := parts[..|parts| - 1];
      assert parts == init + [parts[|parts| - 1]];
      JoinSnoc(init, parts[|parts| - 1], d);
    }
  }

  lemma {:induction false} TrimTrailingPrefix(s: string, d: char)
    ensures TrimTrailing(s, d) <= s
    ensures forall j | |TrimTrailing(s, d)| <= j < |s| :: s[j] == d
    ensures TrimTrailing(s, d) == [] || TrimTrailing(s, d)[|TrimTrailing(s, d)| - 1] != d
    decreases |s|
  {
    if s != [] && s[|s| - 1] == d {
      TrimTrailingPrefix(s[..|s| - 1], d);
    }
  }

  lemma TrimTrailingUndelimited(s: string, d: char)
    requires d !in s
    ensures TrimTrailing(s, d) == s
  {
    if s != [] {
      assert s[|s| - 1] in s;
    }
  }

  lemma {:induction false} StripTrailingEmptyShape(parts: seq<string>)
    ensures StripTrailingEmpty(parts) <= parts
    ensures StripTrailingEmpty(parts) == [] || StripTrailingEmpty(parts)[|StripTrailingEmpty(parts)| - 1] != ""
    decreases |parts|
  {
    if parts != [] && parts[|parts| - 1] == "" {
      StripTrailingEmptyShape(parts[..|parts| - 1]);
    }
  }

  /** Joining after an empty last part adds exactly one delimiter, which trimming removes. */
  lemma TrimJoinEmptyLast(init: seq<string>, d: char)
    ensures TrimTrailing(Join(init + [""], d), d) == TrimTrailing(Join(init, d), d)
  {
    if init != [] {
      JoinSnoc(init, "", d);
      var j := Join(init, d);
      var jd := j + [d];
      assert Join(init + [""], d) == jd;
      assert jd[|jd| - 1] == d;
      assert jd[..|jd| - 1] == j;
      assert TrimTrailing(jd, d) == TrimTrailing(j, d);
    } else {
      assert init + [""] == [""];
    }
  }

  /** The last character of a join is that of its last part, when that part is not empty. */
  lemma JoinLastChar(parts: seq<string>, d: char)
    requires parts != [] && parts[|parts| - 1] != ""
    ensures var j, last := Join(parts, d), parts[|parts| - 1];
      j != [] && j[|j| - 1] == last[|last| - 1]
  {
    var j, last := Join(parts, d), parts[|parts| - 1];
    JoinEndsWithLast(parts, d);
    assert j[|j| - |last|..] == last;
    assert j[|j| - 1] == j[|j| - |last|..][|last| - 1];
  }

  /** A join whose last part is non-empty and undelimited does not end with the delimiter. */
  lemma TrimJoinNonEmptyLast(parts: seq<string>, d: char)
    requires parts != [] && parts[|parts| - 1] != "" && d !in parts[|parts| - 1]
    ensures TrimTrailing(Join(parts, d), d) == Join(parts, d)
  {
    var last := parts[|parts| - 1];
    JoinLastChar(parts, d);
    assert last[|last| - 1] in last;
  }

  lemma {:induction false} StripTrailingEmptyJoin(parts: seq<string>, d: char)
    requires Undelimited(parts, d)
    ensures Join(StripTrailingEmpty(parts), d) == TrimTrailing(Join(parts, d), d)
    decreases |parts|
  {
    if parts == [] {
    } else if parts[|parts| - 1] == "" {
      var init := parts[..|parts| - 1];
      assert Undelimited(init, d) by {
        forall p | p in init ensures d !in p { assert p in parts; }
      }
      StripTrailingEmptyJoin(init, d);
      assert parts == init + [""];
      TrimJoinEmptyLast(init, d);
    } else {
      assert parts[|parts| - 1] in parts;
      TrimJoinNonEmptyLast(parts, d);
    }
  }

  lemma PrefixUndelimited(p: seq<string>, q: seq<string>, d: char)
    requires p <= q && Undelimited(q, d)
    ensures Undelimited(p, d)
  {
    forall x | x in p ensures d !in x {
      var k :| 0 <= k < |p| && p[k] == x;
      assert q[k] == x;
    }
  }

  /**
   * Split is characterised by Join: rejoining its pieces gives `s` less its
   * trailing delimiters, no piece contains the delimiter, and the last piece is
   * empty only for `"".split(d) == [""]`.
   */
  lemma SplitSpec(s: string, d: char)
    ensures Join(Split(s, d), d) == TrimTrailing(s, d)
    ensures Undelimited(Split(s, d), d)
    ensures s == [] ==> Split(s, d) == [""]
    ensures s != [] && Split(s, d) != [] ==> Split(s, d)[|Split(s, d)| - 1] != ""
  {
    if d !in s {
      SplitUndelimited(s, d);
    } else {
      SplitDelimited(s, d);
    }
  }

  lemma SplitUndelimited(s: string, d: char)
    requires d !in s
    ensures Split(s, d) == [s]
    ensures Join([s], d) == TrimTrailing(s, d)
    ensures Undelimited([s], d)
  {
    TrimTrailingUndelimited(s, d);
  }

  lemma SplitDelimited(s: string, d: char)
    requires d in s
    ensures var parts := Split(s, d);
      && Join(parts, d) == TrimTrailing(s, d)
      && Undelimited(parts, d)
      && (parts == [] || parts[|parts| - 1] != "")
  {
    var raw := RawSplit(s, d);
    var parts := StripTrailingEmpty(raw);
    assert Split(s, d) == parts;
    RawSplitJoin(s, d);
    StripTrailingEmptyJoin(raw, d);
    StripTrailingEmptyShape(raw);
    PrefixUndelimited(parts, raw, d);
  }

  /** A delimiter in the joined string means at least two undelimited parts. */
  lemma DelimitedJoin(parts: seq<string>, d: char)
    requires Undelimited(parts, d) && d in Join(parts, d)
    ensures |parts| >= 2
  {
    assert parts != [] ==> parts[0] in parts;
  }

  /**
   * `s.split(d)` has at least two pieces exactly when some delimiter in `s` is
   * followed, later, by a character other than the delimiter.
   */
  lemma SplitHasTwoPieces(s: string, d: char)
    ensures |Split(s, d)| >= 2 <==> exists i, j | 0 <= i < j < |s| :: s[i] == d && s[j] != d
  {
    if |Split(s, d)| >= 2 {
      TwoPiecesHaveDelimiter(s, d);
    }
    if exists i, j | 0 <= i < j < |s| :: s[i] == d && s[j] != d {
      var i, j :| 0 <= i < j < |s| && s[i] == d && s[j] != d;
      DelimiterGivesTwoPieces(s, d, i, j);
    }
  }

  lemma TwoPiecesHaveDelimiter(s: string, d: char)
    requires |Split(s, d)| >= 2
    ensures exists i, j | 0 <= i < j < |s| :: s[i] == d && s[j] != d
  {
    var parts := Split(s, d);
    var t := TrimTrailing(s, d);
    SplitSpec(s, d);
    TrimTrailingPrefix(s, d);
    var a := parts[0];
    var rest := parts[1..];
    var tail := Join(rest, d);
    assert t == a + [d] + tail;
    var last := parts[|parts| - 1];
    assert rest[|rest| - 1] == last;
    assert last in parts;
    JoinLastChar(rest, d);
    assert last[|last| - 1] in last;
    var i, j := |a|, |t| - 1;
    assert t[i] == d && t[j] == tail[|tail| - 1];
    assert s[i] == d && s[j] != d;
  }

  lemma DelimiterGivesTwoPieces(s: string, d: char, i: int, j: int)
    requires 0 <= i < j < |s| && s[i] == d && s[j] != d
    ensures |Split(s, d)| >= 2
  {
    var t := TrimTrailing(s, d);
    SplitSpec(s, d);
    TrimTrailingPrefix(s, d);
    assert j < |t|;
    assert t[i] in t;
    DelimitedJoin(Split(s, d), d);
  }

  /** The first two parts, and the delimiter between them, open the joined string. */
  lemma JoinFirstTwo(parts: seq<string>, d: char)
    requires |parts| >= 2
    ensures var n := |parts[0]| + 1 + |parts[1]|;
      && n <= |Join(parts, d)|
      && Join(parts, d)[..n] == parts[0] + [d] + parts[1]
      && (n == |Join(parts, d)| || Join(parts, d)[n] == d)
  {
    var a, b := parts[0], parts[1];
    if |parts| == 2 {
      assert Join(parts[1..], d) == b;
    } else {
      var rest := Join(parts[2..], d);
      assert Join(parts[1..], d) == b + [d] + rest;
      assert Join(parts, d) == (a + [d] + b) + ([d] + rest);
    }
  }

  /**
   * With two or more pieces, the first is the text before the first delimiter
   * and the second the text between the first delimiter and the next one (or
   * the end of `s`).
   */
  lemma SplitFirstTwoPieces(s: string, d: char)
    requires |Split(s, d)| >= 2
    ensures var a, b := Split(s, d)[0], Split(s, d)[1];
      && d !in a && d !in b
      && |a| + 1 + |b| <= |s|
      && s[..|a| + 1 + |b|] == a + [d] + b
      && (|a| + 1 + |b| == |s| || s[|a| + 1 + |b|] == d)
  {
    var parts := Split(s, d);
    SplitSpec(s, d);
    TrimTrailingPrefix(s, d);
    JoinFirstTwo(parts, d);
    assert parts[0] in parts && parts[1] in parts;
    var t := TrimTrailing(s, d);
    var n := |parts[0]| + 1 + |parts[1]|;
    assert s[..n] == t[..n];
  }
}
