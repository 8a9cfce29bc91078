/**
 * The functions of Go's `strings` package that strkit calls: `Index`,
 * `Split`, `Trim` and `Replace` with a count of one. Separators and cut sets
 * are single characters here, which is all the callers use.
 */
module GoStrings {

  /** Concatenation regroups freely. */
  lemma AppendAssoc(a: string, b: string, c: string)
    ensures (a + b) + c == a + (b + c)
  {
  }

  /** `p` occurs in `s` starting at index `j`. */
  predicate OccursAt(s: string, p: string, j: int) {
    0 <= j && j + |p| <= |s| && s[j..j + |p|] == p
  }

  /** The `p` that follows `t` in `t + p` is the first occurrence of `p` there. */
  predicate FirstAtEnd(t: string, p: string) {
    forall j :: 0 <= j < |t| ==> !OccursAt(t + p, p, j)
  }

  lemma OccursShift(s: string, p: string)
    requires |s| > 0
    ensures forall j :: 1 <= j ==> (OccursAt(s, p, j) <==> OccursAt(s[1..], p, j - 1))
  {
    forall j | 1 <= j
      ensures OccursAt(s, p, j) <==> OccursAt(s[1..], p, j - 1)
    {
      if j + |p| <= |s| {
        assert s[1..][j - 1..j - 1 + |p|] == s[j..j + |p|];
      }
    }
  }

  /** strings.Index: the index of the first occurrence of `p` in `s`, or -1 (see IndexSpec). */
  function Index(s: string, p: string): (r: int)
    ensures -1 <= r && (r >= 0 ==> r + |p| <= |s|)
    decreases |s|
  {
    if |s| < |p| then -1
    else if s[..|p|] == p then 0
    else
      var k := Index(s[1..], p);
      if k < 0 then -1 else k + 1
  }

  /** Index finds an occurrence with none before it, or answers -1 when there is none at all. */
  lemma {:induction false} IndexSpec(s: string, p: string)
    ensures Index(s, p) >= 0 ==> OccursAt(s, p, Index(s, p))
    ensures Index(s, p) >= 0 ==> forall j :: 0 <= j < Index(s, p) ==> !OccursAt(s, p, j)
    ensures Index(s, p) == -1 ==> forall j :: !OccursAt(s, p, j)
    decreases |s|
  {
    if |s| >= |p| && s[..|p|] != p {
      IndexSpec(s[1..], p);
      OccursShift(s, p);
    }
  }

  /** A first occurrence sitting right after a prefix free of it is what Index finds. */
  lemma IndexAfter(t: string, p: string, rest: string)
    requires FirstAtEnd(t, p)
    ensures Index(t + p + rest, p) == |t|
  {
    var s := t + p + rest;
    IndexSpec(s, p);
    assert s[|t|..|t| + |p|] == p;
    assert OccursAt(s, p, |t|);
    forall j | 0 <= j < |t|
      ensures !OccursAt(s, p, j)
    {
      assert !OccursAt(t + p, p, j);
      assert s[j..j + |p|] == (t + p)[j..j + |p|];
    }
  }

  /** With a one-character pattern, "first at end" just means the prefix lacks it. */
  lemma FirstAtEndChar(t: string, c: char)
    ensures FirstAtEnd(t, [c]) <==> c !in t
  {
    if c in t {
      var j :| 0 <= j < |t| && t[j] == c;
      assert (t + [c])[j..j + 1] == [c];
      assert OccursAt(t + [c], [c], j);
    } else {
      forall j | 0 <= j < |t|
        ensures !OccursAt(t + [c], [c], j)
      {
        assert (t + [c])[j..j + 1] == [t[j]];
      }
    }
  }

  /** A prefix that lacks the first character of `p` cannot hold an earlier occurrence. */
  lemma FirstAtEndMissing(t: string, p: string)
    requires |p| > 0 && p[0] !in t
    ensures FirstAtEnd(t, p)
  {
  }

  /** No occurrence of `p` when the first character of `p` does not appear in `s`. */
  lemma IndexMissingChar(s: string, p: string)
    requires |p| > 0 && p[0] !in s
    ensures Index(s, p) == -1
  {
    IndexSpec(s, p);
    forall j | 0 <= j && j + |p| <= |s|
      ensures !OccursAt(s, p, j)
    {
      assert s[j..j + |p|][0] == s[j];
    }
  }

  /**
   * strings.Split with a one-character separator: the pieces between
   * separators, so one more piece than there are separators.
   */
  function Split(s: string, sep: char): (parts: seq<string>)
    ensures |parts| >= 1
    ensures forall i :: 0 <= i < |parts| ==> sep !in parts[i]
    decreases |s|
  {
    if |s| == 0 then [""]
    else
      var rest := Split(s[1..], sep);
      if s[0] == sep then [""] + rest
      else [[s[0]] + rest[0]] + rest[1..]
  }

  /** strings.Join with a one-character separator, the inverse of Split. */
  function Join(parts: seq<string>, sep: char): string
    requires |parts| >= 1
  {
    if |parts| == 1 then parts[0] else parts[0] + [sep] + Join(parts[1..], sep)
  }

  lemma {:induction false} JoinSplit(s: string, sep: char)
    ensures Join(Split(s, sep), sep) == s
    decreases |s|
  {
    if |s| > 0 {
      var rest := Split(s[1..], sep);
      JoinSplit(s[1..], sep);
      if s[0] == sep {
        assert Split(s, sep)[1..] == rest;
        assert s == [s[0]] + s[1..];
      } else {
        var parts := Split(s, sep);
        assert parts[1..] == rest[1..];
        if |rest| == 1 {
          assert s == [s[0]] + rest[0];
        } else {
          assert Join(rest, sep) == rest[0] + [sep] + Join(rest[1..], sep);
          assert s == [s[0]] + s[1..];
        }
      }
    }
  }

  lemma SplitNoSep(s: string, sep: char)
    requires sep !in s
    ensures Split(s, sep) == [s]
    decreases |s|
  {
    if |s| > 0 {
      SplitNoSep(s[1..], sep);
      assert s == [s[0]] + s[1..];
    }
  }

  /** A separator cuts the string into the pieces of each side. */
  lemma {:induction false} SplitConcat(x: string, y: string, sep: char)
    ensures Split(x + [sep] + y, sep) == Split(x, sep) + Split(y, sep)
    decreases |x|
  {
    var s := x + [sep] + y;
    if |x| == 0 {
      assert s[1..] == y;
    } else {
      assert s[1..] == x[1..] + [sep] + y;
      SplitConcat(x[1..], y, sep);
    }
  }

  /** Splitting what Join built gives back the separator-free pieces. */
  lemma {:induction false} SplitJoin(parts: seq<string>, sep: char)
    requires |parts| >= 1
    requires forall i :: 0 <= i < |parts| ==> sep !in parts[i]
    ensures Split(Join(parts, sep), sep) == parts
  {
    if |parts| == 1 {
      SplitNoSep(parts[0], sep);
    } else {
      SplitJoin(parts[1..], sep);
      SplitConcat(parts[0], Join(parts[1..], sep), sep);
      SplitNoSep(parts[0], sep);
    }
  }

  /** strings.TrimLeft with a one-character cut set. */
  function TrimLeft(s: string, c: char): (r: string)
    ensures |r| <= |s| && r == s[|s| - |r|..]
    ensures forall i :: 0 <= i < |s| - |r| ==> s[i] == c
    ensures |r| > 0 ==> r[0] != c
    decreases |s|
  {
    if |s| > 0 && s[0] == c then TrimLeft(s[1..], c) else s
  }

  /** strings.TrimRight with a one-character cut set. */
  function TrimRight(s: string, c: char): (r: string)
    ensures |r| <= |s| && r == s[..|r|]
    ensures forall i :: |r| <= i < |s| ==> s[i] == c
    ensures |r| > 0 ==> r[|r| - 1] != c
    decreases |s|
  {
    if |s| > 0 && s[|s| - 1] == c then TrimRight(s[..|s| - 1], c) else s
  }

  /** strings.Trim with a one-character cut set. */
  function Trim(s: string, c: char): (r: string)
    ensures |r| <= |s|
    ensures |r| > 0 ==> r[0] != c && r[|r| - 1] != c
    ensures c !in s ==> r == s
    ensures (forall i :: 0 <= i < |s| ==> s[i] == c) ==> r == ""
  {
    TrimRight(TrimLeft(s, c), c)
  }

  /** strings.Replace(s, pat, rep, 1): the first occurrence of `pat`, if any, becomes `rep`. */
  function ReplaceFirst(s: string, pat: string, rep: string): (r: string)
    ensures Index(s, pat) < 0 ==> r == s
    ensures Index(s, pat) >= 0 ==> |r| == |s| - |pat| + |rep|
    ensures var k := Index(s, pat); k >= 0 ==> r[..k] == s[..k] && r[k..k + |rep|] == rep && r[k + |rep|..] == s[k + |pat|..]
  {
    var k := Index(s, pat);
    if k < 0 then s else s[..k] + rep + s[k + |pat|..]
  }

  /** Only the first occurrence is replaced; the text around it is kept as it was. */
  lemma ReplaceFirstAt(t: string, pat: string, rest: string, rep: string)
    requires FirstAtEnd(t, pat)
    ensures ReplaceFirst(t + pat + rest, pat, rep) == t + rep + rest
  {
    IndexAfter(t, pat, rest);
    var s := t + pat + rest;
    assert s[..|t|] == t;
    assert s[|t| + |pat|..] == rest;
  }

  lemma ReplaceFirstMissing(s: string, pat: string, rep: string)
    requires |pat| > 0 && pat[0] !in s
    ensures ReplaceFirst(s, pat, rep) == s
  {
    IndexMissingChar(s, pat);
  }
}
