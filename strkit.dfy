/**
 * The string helpers of strkit/strkit.go that the logger relies on: emptiness
 * and blankness tests, first-character case changes, camel-casing, slice
 * filling, named-parameter substitution, and the positional formatters
 * `Format` and `FormatSQL`.
 *
 * Strings are sequences of characters, one character per byte of the Go
 * string. A Go `any` argument is an `Arg`; floating-point numbers, times and
 * values of other types arrive already rendered, as Go's library would
 * render them.
 */
module StrKit {
  import opened GoStrings
  import Strconv
  import opened Wrappers

  const WHITE_SPACE: char := ' '

  // ---------------------------------------------------------------------------
  // Characters

  /** An ASCII lowercase letter; 32 below it lies the matching uppercase letter. */
  predicate IsLower(b: char)
    ensures IsLower(b) ==> !IsUpper(b) && 'A' as int <= b as int - 32 <= 'Z' as int
  {
    'a' <= b <= 'z'
  }

  /** An ASCII uppercase letter; 32 above it lies the matching lowercase letter. */
  predicate IsUpper(b: char)
    ensures IsUpper(b) ==> 'a' as int <= b as int + 32 <= 'z' as int
  {
    'A' <= b <= 'Z'
  }

  // ---------------------------------------------------------------------------
  // Emptiness and blankness

  function IsEmpty(str: string): (r: bool)
    ensures r <==> |str| == 0
  {
    str == "" || |str| == 0
  }

  function IsNotEmpty(str: string): (r: bool)
    ensures r <==> |str| > 0
  {
    !IsEmpty(str)
  }

  function DefaultIfEmpty(str: string, defaultStr: string): (r: string)
    ensures |str| == 0 ==> r == defaultStr
    ensures |str| > 0 ==> r == str
    ensures |r| == 0 ==> |defaultStr| == 0
  {
    if IsEmpty(str) then defaultStr else str
  }

  /** The early-return scan of IsAnyEmpty: is some string of the list empty? */
  function ContainsEmpty(strs: seq<string>): (r: bool)
    ensures r <==> exists i :: 0 <= i < |strs| && |strs[i]| == 0
  {
    |strs| > 0 && (IsEmpty(strs[0]) || ContainsEmpty(strs[1..]))
  }

  /** True for an empty list too. */
  function IsAnyEmpty(strs: seq<string>): (r: bool)
    ensures r <==> |strs| == 0 || exists i :: 0 <= i < |strs| && |strs[i]| == 0
  {
    if |strs| == 0 then true else ContainsEmpty(strs)
  }

  function IsNoneEmpty(strs: seq<string>): (r: bool)
    ensures r <==> |strs| > 0 && forall i :: 0 <= i < |strs| ==> |strs[i]| > 0
  {
    !IsAnyEmpty(strs)
  }

  /** Only the space character counts as blank; tabs and newlines do not. */
  function IsBlank(str: string): (r: bool)
    ensures r <==> forall i :: 0 <= i < |str| ==> str[i] == WHITE_SPACE
  {
    if IsEmpty(str) then true
    else if str[0] != WHITE_SPACE then false
    else IsBlank(str[1..])
  }

  function IsNotBlank(str: string): (r: bool)
    ensures r <==> exists i :: 0 <= i < |str| && str[i] != WHITE_SPACE
  {
    !IsBlank(str)
  }

  function DefaultIfBlank(str: string, defaultStr: string): (r: string)
    ensures IsBlank(str) ==> r == defaultStr
    ensures !IsBlank(str) ==> r == str
    ensures IsBlank(r) ==> IsBlank(defaultStr)
  {
    if IsBlank(str) then defaultStr else str
  }

  /** The early-return scan of IsAnyBlank: is some string of the list blank? */
  function ContainsBlank(strs: seq<string>): (r: bool)
    ensures r <==> exists i :: 0 <= i < |strs| && IsBlank(strs[i])
  {
    |strs| > 0 && (IsBlank(strs[0]) || ContainsBlank(strs[1..]))
  }

  /** True for an empty list too. */
  function IsAnyBlank(strs: seq<string>): (r: bool)
    ensures r <==> |strs| == 0 || exists i :: 0 <= i < |strs| && IsBlank(strs[i])
  {
    if |strs| == 0 then true else ContainsBlank(strs)
  }

  function IsNoneBlank(strs: seq<string>): (r: bool)
    ensures r <==> |strs| > 0 && forall i :: 0 <= i < |strs| ==> !IsBlank(strs[i])
  {
    !IsAnyBlank(strs)
  }

  lemma BlankExamples()
    ensures IsBlank("") && IsBlank("   ")
    ensures !IsBlank("\t") && !IsBlank(" \n") && !IsBlank(" a ")
    ensures IsAnyEmpty([]) && IsAnyBlank([]) && !IsNoneEmpty([]) && !IsNoneBlank([])
  {
    assert " \n"[1] != WHITE_SPACE;
    assert " a "[1] != WHITE_SPACE;
  }

  // ---------------------------------------------------------------------------
  // First-character case changes

  /** Upper-cases byte 0 when it is a lowercase ASCII letter; the source indexes byte 0, so the string must not be empty. */
  function FirstCharToUpper(str: string): (r: string)
    requires |str| > 0
    ensures |r| == |str| && r[1..] == str[1..]
    ensures !IsLower(r[0])
    ensures IsLower(str[0]) ==> IsUpper(r[0]) && r[0] as int == str[0] as int - 32
    ensures !IsLower(str[0]) ==> r == str
  {
    var first := str[0];
    if 'a' <= first <= 'z' then str[0 := (first as int - 32) as char] else str
  }

  /** Lower-cases byte 0 when it is an uppercase ASCII letter; the string must not be empty. */
  function FirstCharToLower(str: string): (r: string)
    requires |str| > 0
    ensures |r| == |str| && r[1..] == str[1..]
    ensures !IsUpper(r[0])
    ensures IsUpper(str[0]) ==> IsLower(r[0]) && r[0] as int == str[0] as int + 32
    ensures !IsUpper(str[0]) ==> r == str
  {
    var first := str[0];
    if 'A' <= first <= 'Z' then str[0 := (first as int + 32) as char] else str
  }

  /** Lower-casing after upper-casing is the same as lower-casing alone, and the other way round. */
  lemma FirstCharCaseRoundTrip(str: string)
    requires |str| > 0
    ensures FirstCharToLower(FirstCharToUpper(str)) == FirstCharToLower(str)
    ensures FirstCharToUpper(FirstCharToLower(str)) == FirstCharToUpper(str)
    ensures IsLower(str[0]) ==> FirstCharToLower(FirstCharToUpper(str)) == str
    ensures IsUpper(str[0]) ==> FirstCharToUpper(FirstCharToLower(str)) == str
  {
    var u, l := FirstCharToUpper(str), FirstCharToLower(str);
    assert u == [u[0]] + str[1..];
    assert l == [l[0]] + str[1..];
    assert str == [str[0]] + str[1..];
  }

  /** Only the first character of a concatenation is affected. */
  lemma FirstCharAppend(x: string, y: string)
    requires |x| > 0
    ensures FirstCharToLower(x + y) == FirstCharToLower(x) + y
    ensures FirstCharToUpper(x + y) == FirstCharToUpper(x) + y
  {
    var l, u := FirstCharToLower(x), FirstCharToUpper(x);
    assert l == [l[0]] + x[1..];
    assert u == [u[0]] + x[1..];
    assert x + y == [x[0]] + (x[1..] + y);
  }

  // ---------------------------------------------------------------------------
  // Camel case

  /** What ToUpperCamel writes for one `_`-segment: nothing if blank, else the segment with byte 0 upper-cased. */
  function UpperPiece(seg: string): string {
    if IsBlank(seg) then "" else FirstCharToUpper(seg)
  }

  /** What ToLowerCamel writes for its first segment. */
  function LowerPiece(seg: string): string {
    if IsBlank(seg) then "" else FirstCharToLower(seg)
  }

  /** The pieces of ToUpperCamel, appended in segment order. */
  function UpperCamelOf(segs: seq<string>): string {
    if |segs| == 0 then "" else UpperCamelOf(segs[..|segs| - 1]) + UpperPiece(segs[|segs| - 1])
  }

  /** The pieces of ToLowerCamel: the segment at index 0 is lower-cased, every later one upper-cased. */
  function LowerCamelOf(segs: seq<string>): string {
    if |segs| == 0 then ""
    else if |segs| == 1 then LowerPiece(segs[0])
    else LowerCamelOf(segs[..|segs| - 1]) + UpperPiece(segs[|segs| - 1])
  }

  /** The value ToUpperCamel returns. */
  function UpperCamel(str: string): string {
    UpperCamelOf(Split(str, '_'))
  }

  /** The value ToLowerCamel returns: underscores at both ends are trimmed before splitting. */
  function LowerCamel(str: string): string {
    LowerCamelOf(Split(Trim(str, '_'), '_'))
  }

  method ToUpperCamel(str: string) returns (r: string)
    ensures r == UpperCamel(str)
  {
    var splits := Split(str, '_');
    var builder := "";
    for i := 0 to |splits|
      invariant builder == UpperCamelOf(splits[..i])
    {
      assert splits[..i + 1][..i] == splits[..i];
      var ele := splits[i];
      if IsBlank(ele) {
        continue;
      }
      var s := FirstCharToUpper(ele);
      builder := builder + s;
    }
    assert splits[..|splits|] == splits;
    r := builder;
  }

  method ToLowerCamel(str: string) returns (r: string)
    ensures r == LowerCamel(str)
  {
    var splits := Split(Trim(str, '_'), '_');
    var builder := "";
    for i := 0 to |splits|
      invariant builder == LowerCamelOf(splits[..i])
    {
      LowerCamelOfStep(splits, i);
      var ele := splits[i];
      if IsBlank(ele) {
        continue;
      }
      var s: string;
      if i == 0 {
        s := FirstCharToLower(ele);
      } else {
        s := FirstCharToUpper(ele);
      }
      builder := builder + s;
    }
    assert splits[..|splits|] == splits;
    r := builder;
  }

  /** One more segment extends LowerCamelOf by the piece written for it. */
  lemma LowerCamelOfStep(segs: seq<string>, i: nat)
    requires i < |segs|
    ensures LowerCamelOf(segs[..i + 1]) == LowerCamelOf(segs[..i]) + (if i == 0 then LowerPiece(segs[0]) else UpperPiece(segs[i]))
  {
    assert segs[..i + 1][..i] == segs[..i];
  }

  lemma {:induction false} UpperCamelOfNoSep(segs: seq<string>)
    requires forall i :: 0 <= i < |segs| ==> '_' !in segs[i]
    ensures '_' !in UpperCamelOf(segs)
  {
    if |segs| > 0 {
      UpperCamelOfNoSep(segs[..|segs| - 1]);
      var last := segs[|segs| - 1];
      if !IsBlank(last) {
        var u := FirstCharToUpper(last);
        assert u == [u[0]] + last[1..];
        assert last == [last[0]] + last[1..];
      }
    }
  }

  lemma {:induction false} LowerCamelOfNoSep(segs: seq<string>)
    requires forall i :: 0 <= i < |segs| ==> '_' !in segs[i]
    ensures '_' !in LowerCamelOf(segs)
  {
    if |segs| == 1 {
      var s := segs[0];
      if !IsBlank(s) {
        var l := FirstCharToLower(s);
        assert l == [l[0]] + s[1..];
        assert s == [s[0]] + s[1..];
      }
    } else if |segs| > 1 {
      LowerCamelOfNoSep(segs[..|segs| - 1]);
      UpperCamelOfNoSep([segs[|segs| - 1]]);
      assert [segs[|segs| - 1]][..0] == [];
    }
  }

  /** No underscore survives camel-casing. */
  lemma CamelHasNoUnderscore(str: string)
    ensures '_' !in UpperCamel(str)
    ensures '_' !in LowerCamel(str)
  {
    UpperCamelOfNoSep(Split(str, '_'));
    LowerCamelOfNoSep(Split(Trim(str, '_'), '_'));
  }

  /** Upper-casing keeps a non-blank segment non-blank. */
  lemma UpperKeepsNonBlank(seg: string)
    requires !IsBlank(seg)
    ensures !IsBlank(FirstCharToUpper(seg))
  {
    var i :| 0 <= i < |seg| && seg[i] != WHITE_SPACE;
    var u := FirstCharToUpper(seg);
    if i > 0 {
      assert u[1..][i - 1] == seg[1..][i - 1];
    }
    assert u[i] != WHITE_SPACE;
  }

  /** UpperCamelOf yields the empty string or a non-blank string that does not start in lowercase. */
  lemma {:induction false} UpperCamelOfShape(segs: seq<string>)
    ensures var r := UpperCamelOf(segs); r == "" || (!IsBlank(r) && !IsLower(r[0]))
  {
    if |segs| > 0 {
      var init := UpperCamelOf(segs[..|segs| - 1]);
      var piece := UpperPiece(segs[|segs| - 1]);
      var r := UpperCamelOf(segs);
      assert r == init + piece;
      UpperCamelOfShape(segs[..|segs| - 1]);
      if init == "" {
        assert r == piece;
        if piece != "" {
          UpperKeepsNonBlank(segs[|segs| - 1]);
        }
      } else {
        assert r[0] == init[0];
        var i :| 0 <= i < |init| && init[i] != WHITE_SPACE;
        assert r[i] == init[i];
      }
    }
  }

  /** Camel-casing an upper-camel string changes nothing. */
  lemma UpperCamelIdempotent(str: string)
    ensures UpperCamel(UpperCamel(str)) == UpperCamel(str)
  {
    var r := UpperCamel(str);
    CamelHasNoUnderscore(str);
    SplitNoSep(r, '_');
    UpperCamelOfShape(Split(str, '_'));
    assert [r][..0] == [];
    assert UpperCamel(r) == UpperPiece(r) by {
      assert UpperCamelOf([r]) == UpperCamelOf([]) + UpperPiece(r);
    }
    if r != "" {
      assert UpperPiece(r) == FirstCharToUpper(r);
    }
  }

  /** One more trailing separator adds one empty segment. */
  lemma SplitTrailingSep(front: string, sep: char)
    ensures Split(front + [sep], sep) == Split(front, sep) + [""]
  {
    SplitConcat(front, "", sep);
    assert front + [sep] + "" == front + [sep];
  }

  /** An empty last segment writes nothing. */
  lemma CamelOfEmptyLast(segs: seq<string>)
    requires |segs| >= 1
    ensures UpperCamelOf(segs + [""]) == UpperCamelOf(segs)
    ensures LowerCamelOf(segs + [""]) == LowerCamelOf(segs)
    ensures (segs + [""])[0] == segs[0]
  {
    assert (segs + [""])[..|segs|] == segs;
  }

  /** Trailing underscores only add blank segments, which write nothing. */
  lemma {:induction false} CamelIgnoresTrailingSeps(str: string)
    ensures Split(TrimRight(str, '_'), '_')[0] == Split(str, '_')[0]
    ensures UpperCamelOf(Split(TrimRight(str, '_'), '_')) == UpperCamelOf(Split(str, '_'))
    ensures LowerCamelOf(Split(TrimRight(str, '_'), '_')) == LowerCamelOf(Split(str, '_'))
    decreases |str|
  {
    if |str| > 0 && str[|str| - 1] == '_' {
      var front := str[..|str| - 1];
      assert TrimRight(str, '_') == TrimRight(front, '_');
      CamelIgnoresTrailingSeps(front);
      assert str == front + ['_'];
      SplitTrailingSep(front, '_');
      CamelOfEmptyLast(Split(front, '_'));
    }
  }

  /** ToLowerCamel agrees with ToUpperCamel except for the case of the first character, when the first segment is not blank. */
  lemma {:induction false} LowerCamelOfUpper(segs: seq<string>)
    requires |segs| >= 1 && !IsBlank(segs[0])
    ensures |UpperCamelOf(segs)| > 0
    ensures LowerCamelOf(segs) == FirstCharToLower(UpperCamelOf(segs))
  {
    if |segs| == 1 {
      assert segs[..0] == [];
      FirstCharCaseRoundTrip(segs[0]);
    } else {
      var init := segs[..|segs| - 1];
      assert init[0] == segs[0];
      LowerCamelOfUpper(init);
      FirstCharAppend(UpperCamelOf(init), UpperPiece(segs[|segs| - 1]));
    }
  }

  lemma LowerCamelFromUpper(str: string)
    requires !IsBlank(Split(str, '_')[0])
    ensures |UpperCamel(str)| > 0
    ensures LowerCamel(str) == FirstCharToLower(UpperCamel(str))
  {
    assert |str| > 0 && str[0] != '_';
    assert TrimLeft(str, '_') == str;
    CamelIgnoresTrailingSeps(str);
    LowerCamelOfUpper(Split(str, '_'));
  }

  // ---------------------------------------------------------------------------
  // FillSlice

  method FillSlice(length: int, fillStr: string) returns (slice: seq<string>)
    ensures |slice| == if length > 0 then length else 0
    ensures forall i :: 0 <= i < |slice| ==> slice[i] == fillStr
  {
    slice := [];
    var i := 0;
    while i < length
      invariant 0 <= i == |slice|
      invariant i <= (if length > 0 then length else 0)
      invariant forall k :: 0 <= k < |slice| ==> slice[k] == fillStr
    {
      slice := slice + [fillStr];
      i := i + 1;
    }
  }

  // ---------------------------------------------------------------------------
  // FormatParam

  /** Named placeholder `{key}`. */
  function Brace(key: string): string {
    "{" + key + "}"
  }

  /** The replacements applied in the order `order` visits the keys; each replaces one occurrence. */
  function ParamsApplied(str: string, dataMap: map<string, string>, order: seq<string>): string
    requires forall i :: 0 <= i < |order| ==> order[i] in dataMap
  {
    if |order| == 0 then str
    else
      var k := order[|order| - 1];
      ReplaceFirst(ParamsApplied(str, dataMap, order[..|order| - 1]), Brace(k), dataMap[k])
  }

  /**
   * Replaces the first `{key}` of each key of `dataMap` by its value. Go visits
   * the keys of a map in an unspecified order; `order` is the order of this run
   * and lists every key once.
   */
  method FormatParam(str: string, dataMap: map<string, string>, order: seq<string>) returns (r: string)
    requires forall k :: k in dataMap <==> k in order
    requires forall i, j :: 0 <= i < j < |order| ==> order[i] != order[j]
    ensures r == ParamsApplied(str, dataMap, order)
  {
    r := str;
    for i := 0 to |order|
      invariant r == ParamsApplied(str, dataMap, order[..i])
    {
      var k := order[i];
      var v := dataMap[k];
      assert order[..i + 1][..i] == order[..i];
      r := ReplaceFirst(r, "{" + k + "}", v);
    }
    assert order[..|order|] == order;
  }

  /** A template with no `{` is returned unchanged, whatever the map. */
  lemma {:induction false} ParamsWithoutBrace(str: string, dataMap: map<string, string>, order: seq<string>)
    requires forall i :: 0 <= i < |order| ==> order[i] in dataMap
    requires '{' !in str
    ensures ParamsApplied(str, dataMap, order) == str
  {
    if |order| > 0 {
      ParamsWithoutBrace(str, dataMap, order[..|order| - 1]);
      var k := order[|order| - 1];
      ReplaceFirstMissing(str, Brace(k), dataMap[k]);
    }
  }

  /**
   * Two keys visited in the order `k1`, `k2`, each `{key}` appearing once, as
   * in "hello my name is {a},age is {b}": each is replaced by its value and the
   * text around them is kept. The first value must not hold a `{`, because the
   * second replacement searches the text the first one produced.
   */
  lemma FormatParamTwoKeys(t1: string, t2: string, t3: string, k1: string, k2: string, v1: string, v2: string)
    requires k1 != k2
    requires '{' !in t1 && '{' !in t2 && '{' !in v1
    ensures ParamsApplied(t1 + Brace(k1) + t2 + Brace(k2) + t3, map[k1 := v1, k2 := v2], [k1, k2])
            == t1 + v1 + t2 + v2 + t3
  {
    var m := map[k1 := v1, k2 := v2];
    var s := t1 + Brace(k1) + t2 + Brace(k2) + t3;
    var u := t1 + v1 + t2;
    assert ReplaceFirst(s, Brace(k1), v1) == u + Brace(k2) + t3 by {
      assert Brace(k1)[0] == '{';
      FirstAtEndMissing(t1, Brace(k1));
      ReplaceFirstAt(t1, Brace(k1), t2 + Brace(k2) + t3, v1);
      assert s == t1 + Brace(k1) + (t2 + Brace(k2) + t3);
      AppendAssoc(t1 + v1, t2, Brace(k2));
      AppendAssoc(t1 + v1, t2 + Brace(k2), t3);
    }
    assert ReplaceFirst(u + Brace(k2) + t3, Brace(k2), v2) == t1 + v1 + t2 + v2 + t3 by {
      assert Brace(k2)[0] == '{';
      FirstAtEndMissing(u, Brace(k2));
      ReplaceFirstAt(u, Brace(k2), t3, v2);
    }
    assert ParamsApplied(s, m, [k1]) == ReplaceFirst(s, Brace(k1), v1) by {
      assert [k1][..0] == [];
      assert m[k1] == v1;
    }
    assert ParamsApplied(s, m, [k1, k2]) == ReplaceFirst(ParamsApplied(s, m, [k1]), Brace(k2), v2) by {
      assert [k1, k2][..1] == [k1];
      assert m[k2] == v2;
    }
  }

  /**
   * Visiting the keys the other way round gives the same text: `{k2}` is
   * found after `{k1}` because no brace of `{k1}` can start `{k2}` when the
   * keys hold no braces.
   */
  lemma FormatParamTwoKeysReversed(t1: string, t2: string, t3: string, k1: string, k2: string, v1: string, v2: string)
    requires k1 != k2
    requires '{' !in t1 && '{' !in t2
    requires '{' !in k1 && '}' !in k1 && '}' !in k2
    ensures ParamsApplied(t1 + Brace(k1) + t2 + Brace(k2) + t3, map[k1 := v1, k2 := v2], [k2, k1])
            == t1 + v1 + t2 + v2 + t3
  {
    var m := map[k1 := v1, k2 := v2];
    var u := t1 + Brace(k1) + t2;
    var s := u + Brace(k2) + t3;
    assert ReplaceFirst(s, Brace(k2), v2) == u + v2 + t3 by {
      BraceNotBefore(t1, k1, t2, k2);
      ReplaceFirstAt(u, Brace(k2), t3, v2);
    }
    assert ReplaceFirst(u + v2 + t3, Brace(k1), v1) == t1 + v1 + t2 + v2 + t3 by {
      assert Brace(k1)[0] == '{';
      FirstAtEndMissing(t1, Brace(k1));
      ReplaceFirstAt(t1, Brace(k1), t2 + v2 + t3, v1);
      AppendAssoc(t1 + Brace(k1), t2, v2);
      AppendAssoc(t1 + Brace(k1), t2 + v2, t3);
      AppendAssoc(t1 + v1, t2, v2);
      AppendAssoc(t1 + v1, t2 + v2, t3);
    }
    assert ParamsApplied(s, m, [k2]) == ReplaceFirst(s, Brace(k2), v2) by {
      assert [k2][..0] == [];
      assert m[k2] == v2;
    }
    assert ParamsApplied(s, m, [k2, k1]) == ReplaceFirst(ParamsApplied(s, m, [k2]), Brace(k1), v1) by {
      assert [k2, k1][..1] == [k2];
      assert m[k1] == v1;
    }
  }

  /** `{k2}` does not occur in `t1 {k1} t2` when the texts hold no `{` and the keys no braces. */
  lemma BraceNotBefore(t1: string, k1: string, t2: string, k2: string)
    requires k1 != k2
    requires '{' !in t1 && '{' !in t2
    requires '{' !in k1 && '}' !in k1 && '}' !in k2
    ensures FirstAtEnd(t1 + Brace(k1) + t2, Brace(k2))
  {
    var t := t1 + Brace(k1) + t2;
    var p := Brace(k2);
    var s := t + p;
    forall j | 0 <= j < |t|
      ensures !OccursAt(s, p, j)
    {
      var w := s[j..j + |p|];
      if j != |t1| {
        assert t[j] != '{' by {
          if j < |t1| {
            assert t[j] == t1[j];
          } else if j <= |t1| + |k1| {
            assert t[j] == k1[j - |t1| - 1];
          } else if j == |t1| + |k1| + 1 {
            assert t[j] == '}';
          } else {
            assert t[j] == t2[j - |t1| - |k1| - 2];
          }
        }
        assert w[0] != p[0];
      } else if |k1| < |k2| {
        assert s[j + |k1| + 1] == '}';
        assert p[|k1| + 1] == k2[|k1|];
        assert w[|k1| + 1] != p[|k1| + 1];
      } else if |k1| > |k2| {
        assert p[|k2| + 1] == '}';
        assert s[j + |k2| + 1] == k1[|k2|];
        assert w[|k2| + 1] != p[|k2| + 1];
      } else {
        var i :| 0 <= i < |k1| && k1[i] != k2[i];
        assert s[j + i + 1] == k1[i];
        assert p[i + 1] == k2[i];
        assert w[i + 1] != p[i + 1];
      }
    }
  }

  // ---------------------------------------------------------------------------
  // Positional formatting

  /** A Go `any` argument, by the type switch of Format and FormatSQL. */
  datatype Arg =
    | Int(i: int)           // int
    | Float(text: string)   // float64, as strconv.FormatFloat(f, 'f', -1, 64) renders it
    | Str(s: string)        // string
    | Time(text: string)    // time.Time, as FormatTime renders it
    | Other(text: string)   // any other value, as fmt.Sprintf("%v") renders it

  /** How Format writes an argument: an int in decimal, a string as it is. */
  function Render(a: Arg): (r: string)
    ensures a.Int? ==> Strconv.ReadDecimal(r) == Some(a.i)
    ensures a.Str? ==> r == a.s
  {
    match a
    case Int(i) => Strconv.ReadItoa(i); Strconv.Itoa(i)
    case Float(text) => text
    case Str(s) => s
    case Time(text) => text
    case Other(text) => text
  }

  /**
   * How FormatSQL writes an argument: as Format does, except that strings and
   * times are quoted and values of other types are not written at all.
   */
  function SqlRender(a: Arg): (r: string)
    ensures a.Int? || a.Float? ==> r == Render(a)
    ensures a.Str? || a.Time? ==> r == "'" + Render(a) + "'"
    ensures a.Other? ==> r == ""
  {
    match a
    case Int(i) => Strconv.Itoa(i)
    case Float(text) => text
    case Str(s) => "'" + s + "'"
    case Time(text) => "'" + text + "'"
    case Other(_) => ""
  }

  function Renders(args: seq<Arg>): seq<string> {
    seq(|args|, i requires 0 <= i < |args| => Render(args[i]))
  }

  function SqlRenders(args: seq<Arg>): seq<string> {
    seq(|args|, i requires 0 <= i < |args| => SqlRender(args[i]))
  }

  /**
   * The substitution loop shared by Format and FormatSQL: each value in turn
   * replaces the first placeholder of what is left, and the search goes on
   * after that placeholder. It stops when the values run out or no
   * placeholder is left.
   */
  function Substitute(str: string, ph: string, vals: seq<string>): string
    decreases |vals|
  {
    if |vals| == 0 then str
    else
      var k := Index(str, ph);
      if k < 0 then str
      else str[..k] + vals[0] + Substitute(str[k + |ph|..], ph, vals[1..])
  }

  /**
   * One turn of the substitution loop: when the first placeholder of `rest`
   * is at `k`, the text before it and value `i` move to the output and the
   * search goes on after the placeholder.
   */
  lemma SubstituteAdvance(out: string, rest: string, ph: string, vals: seq<string>, i: nat, target: string,
                          k: int, v: string)
    requires i < |vals| && k == Index(rest, ph) && k >= 0 && v == vals[i]
    requires out + Substitute(rest, ph, vals[i..]) == target
    ensures (out + rest[..k] + v) + Substitute(rest[k + |ph|..], ph, vals[i + 1..]) == target
  {
    var tail := Substitute(rest[k + |ph|..], ph, vals[i + 1..]);
    SubstituteUnfold(rest, ph, vals[i..]);
    assert rest[..Index(rest, ph)] == rest[..k];
    assert rest[Index(rest, ph) + |ph|..] == rest[k + |ph|..];
    assert vals[i..][0] == v && vals[i..][1..] == vals[i + 1..];
    AppendAssoc(out, rest[..k] + v, tail);
    AppendAssoc(out, rest[..k], v);
  }

  lemma SubstituteUnfold(rest: string, ph: string, vs: seq<string>)
    requires |vs| > 0 && Index(rest, ph) >= 0
    ensures Substitute(rest, ph, vs)
            == rest[..Index(rest, ph)] + vs[0] + Substitute(rest[Index(rest, ph) + |ph|..], ph, vs[1..])
  {
  }

  /** The loop ends when the values run out or no placeholder is left; the rest is then copied. */
  lemma SubstituteDone(rest: string, ph: string, vals: seq<string>, i: nat)
    requires i <= |vals| && (i == |vals| || Index(rest, ph) < 0)
    ensures Substitute(rest, ph, vals[i..]) == rest
  {
  }

  /** The value Format returns. */
  function Formatted(str: string, ph: string, args: seq<Arg>): string {
    if IsBlank(str) || IsBlank(ph) || |args| == 0 then str
    else Substitute(str, ph, Renders(args))
  }

  /** The value FormatSQL returns. */
  function FormattedSQL(sql: string, params: seq<Arg>): string {
    if IsBlank(sql) || |params| == 0 then sql
    else Substitute(sql, "?", SqlRenders(params))
  }

  method Format(str: string, placeHolder: string, args: seq<Arg>) returns (r: string)
    ensures r == Formatted(str, placeHolder, args)
  {
    if IsBlank(str) || IsBlank(placeHolder) || |args| == 0 {
      return str;
    }
    ghost var vals := Renders(args);
    ghost var target := Substitute(str, placeHolder, vals);
    assert target == Formatted(str, placeHolder, args);
    var rest := str;
    var builder := "";
    var i := 0;
    while i < |args|
      invariant 0 <= i <= |args|
      invariant builder + Substitute(rest, placeHolder, vals[i..]) == target
    {
      var delimIndex := Index(rest, placeHolder);
      if delimIndex == -1 {
        break;
      }
      SubstituteAdvance(builder, rest, placeHolder, vals, i, target, delimIndex, Render(args[i]));
      builder := builder + rest[..delimIndex];
      builder := builder + Render(args[i]);
      rest := rest[delimIndex + |placeHolder|..];
      i := i + 1;
    }
    SubstituteDone(rest, placeHolder, vals, i);
    builder := builder + rest;
    r := builder;
  }

  method FormatSQL(sql: string, params: seq<Arg>) returns (r: string)
    ensures r == FormattedSQL(sql, params)
  {
    if IsBlank(sql) || |params| == 0 {
      return sql;
    }
    ghost var vals := SqlRenders(params);
    ghost var target := Substitute(sql, "?", vals);
    assert target == FormattedSQL(sql, params);
    var rest := sql;
    var builder := "";
    var i := 0;
    while i < |params|
      invariant 0 <= i <= |params|
      invariant builder + Substitute(rest, "?", vals[i..]) == target
    {
      var delimIndex := Index(rest, "?");
      if delimIndex == -1 {
        break;
      }
      SubstituteAdvance(builder, rest, "?", vals, i, target, delimIndex, SqlRender(params[i]));
      assert rest[delimIndex + |"?"|..] == rest[delimIndex + 1..];
      builder := builder + rest[..delimIndex];
      builder := builder + SqlRender(params[i]);
      rest := rest[delimIndex + 1..];
      i := i + 1;
    }
    SubstituteDone(rest, "?", vals, i);
    builder := builder + rest;
    r := builder;
  }

  /** A blank template, a blank placeholder or an empty argument list leave the template as it is. */
  lemma FormatUnchanged(str: string, ph: string, args: seq<Arg>)
    requires IsBlank(str) || IsBlank(ph) || |args| == 0
    ensures Formatted(str, ph, args) == str
  {
  }

  /** The template text `texts[0] ph texts[1] ph ... texts[n]`. */
  function Template(texts: seq<string>, ph: string): string
    requires |texts| >= 1
  {
    if |texts| == 1 then texts[0] else texts[0] + ph + Template(texts[1..], ph)
  }

  /** `texts[0] vals[0] texts[1] vals[1] ... texts[n]`. */
  function Interleave(texts: seq<string>, vals: seq<string>): string
    requires |texts| == |vals| + 1
  {
    if |vals| == 0 then texts[0] else texts[0] + vals[0] + Interleave(texts[1..], vals[1..])
  }

  function Min(a: int, b: int): int {
    if a <= b then a else b
  }

  /**
   * No rescanning: after the first placeholder is replaced, the search goes on
   * in the text that follows it, so the inserted value is kept verbatim even
   * when it contains the placeholder.
   */
  lemma SubstituteStep(t: string, ph: string, rest: string, v: string, vs: seq<string>)
    requires FirstAtEnd(t, ph)
    ensures Substitute(t + ph + rest, ph, [v] + vs) == t + v + Substitute(rest, ph, vs)
  {
    var s := t + ph + rest;
    IndexAfter(t, ph, rest);
    assert s[..|t|] == t;
    assert s[|t| + |ph|..] == rest;
    assert ([v] + vs)[1..] == vs;
  }

  /** A template without the placeholder is left as it is, however many values there are. */
  lemma SubstituteNoPlaceholder(str: string, ph: string, vals: seq<string>)
    requires Index(str, ph) < 0
    ensures Substitute(str, ph, vals) == str
  {
  }

  /**
   * Left-to-right substitution. For a template made of the texts `texts` with
   * a placeholder between each two and none found inside them, the first
   * `m = min(|vals|, |texts| - 1)` placeholders are replaced by the first `m`
   * values in order, the texts between them are copied verbatim, values
   * beyond the number of placeholders are ignored, and the placeholders
   * beyond the number of values stay in the output as they were.
   */
  lemma {:induction false} SubstituteSegments(texts: seq<string>, ph: string, vals: seq<string>)
    requires |texts| >= 1
    requires forall j :: 0 <= j < |texts| - 1 ==> FirstAtEnd(texts[j], ph)
    requires Index(texts[|texts| - 1], ph) < 0
    ensures var m := Min(|vals|, |texts| - 1);
            Substitute(Template(texts, ph), ph, vals)
            == Interleave(texts[..m] + [Template(texts[m..], ph)], vals[..m])
  {
    var m := Min(|vals|, |texts| - 1);
    if m == 0 {
      assert texts[0..] == texts;
      assert texts[..0] + [Template(texts, ph)] == [Template(texts, ph)];
      if |vals| > 0 {
        assert |texts| == 1;
      }
    } else {
      var tail := texts[1..];
      assert forall j :: 0 <= j < |tail| - 1 ==> FirstAtEnd(tail[j], ph) by {
        forall j | 0 <= j < |tail| - 1 ensures FirstAtEnd(tail[j], ph) {
          assert tail[j] == texts[j + 1];
        }
      }
      SubstituteSegments(tail, ph, vals[1..]);
      assert Min(|vals[1..]|, |tail| - 1) == m - 1;
      SegmentsHead(texts, ph, vals, m);
    }
  }

  /** The inductive step of SubstituteSegments: the first placeholder takes the first value. */
  lemma SegmentsHead(texts: seq<string>, ph: string, vals: seq<string>, m: nat)
    requires 1 <= m <= |vals| && m <= |texts| - 1
    requires FirstAtEnd(texts[0], ph)
    requires Substitute(Template(texts[1..], ph), ph, vals[1..])
             == Interleave(texts[1..][..m - 1] + [Template(texts[1..][m - 1..], ph)], vals[1..][..m - 1])
    ensures Substitute(Template(texts, ph), ph, vals)
            == Interleave(texts[..m] + [Template(texts[m..], ph)], vals[..m])
  {
    var tail := texts[1..];
    assert Substitute(Template(texts, ph), ph, vals)
           == texts[0] + vals[0] + Substitute(Template(tail, ph), ph, vals[1..]) by {
      assert Template(texts, ph) == texts[0] + ph + Template(tail, ph);
      SubstituteStep(texts[0], ph, Template(tail, ph), vals[0], vals[1..]);
      assert [vals[0]] + vals[1..] == vals;
    }
    InterleaveShift(texts, ph, vals, m);
  }

  /** The interleaving of the first `m` texts and values starts with the first text and the first value. */
  lemma InterleaveShift(texts: seq<string>, ph: string, vals: seq<string>, m: nat)
    requires 1 <= m <= |vals| && m <= |texts| - 1
    ensures Interleave(texts[..m] + [Template(texts[m..], ph)], vals[..m])
            == texts[0] + vals[0] + Interleave(texts[1..][..m - 1] + [Template(texts[1..][m - 1..], ph)], vals[1..][..m - 1])
  {
    var tail := texts[1..];
    var pieces := texts[..m] + [Template(texts[m..], ph)];
    assert pieces[0] == texts[0];
    assert pieces[1..] == tail[..m - 1] + [Template(tail[m - 1..], ph)] by {
      assert texts[m..] == tail[m - 1..];
      assert texts[..m][1..] == tail[..m - 1];
    }
    assert vals[..m][0] == vals[0];
    assert vals[..m][1..] == vals[1..][..m - 1];
  }

  /** Every piece of a blank string is blank. */
  lemma BlankInfix(a: string, b: string, c: string)
    ensures IsBlank(a + b + c) ==> IsBlank(b)
  {
    if IsBlank(a + b + c) {
      forall i | 0 <= i < |b| ensures b[i] == WHITE_SPACE {
        assert b[i] == (a + b + c)[|a| + i];
      }
    }
  }

  /** Format is the left-to-right substitution of the rendered arguments (see SubstituteSegments). */
  lemma FormatLeftToRight(texts: seq<string>, ph: string, args: seq<Arg>)
    requires |texts| >= 1 && !IsBlank(ph)
    requires forall j :: 0 <= j < |texts| - 1 ==> FirstAtEnd(texts[j], ph)
    requires Index(texts[|texts| - 1], ph) < 0
    ensures var m := Min(|args|, |texts| - 1);
            Formatted(Template(texts, ph), ph, args)
            == Interleave(texts[..m] + [Template(texts[m..], ph)], Renders(args)[..m])
  {
    SubstituteSegments(texts, ph, Renders(args));
    if |texts| > 1 {
      // The placeholder sits inside the template, so a blank template would need a blank placeholder.
      BlankInfix(texts[0], ph, Template(texts[1..], ph));
    }
    if |args| == 0 {
      assert texts[0..] == texts;
    }
  }

  /** FormatSQL does the same with `?`, rendering through SqlRender. */
  lemma FormatSQLLeftToRight(texts: seq<string>, params: seq<Arg>)
    requires |texts| >= 1
    requires forall j :: 0 <= j < |texts| ==> '?' !in texts[j]
    ensures var m := Min(|params|, |texts| - 1);
            FormattedSQL(Template(texts, "?"), params)
            == Interleave(texts[..m] + [Template(texts[m..], "?")], SqlRenders(params)[..m])
  {
    forall j | 0 <= j < |texts| - 1 ensures FirstAtEnd(texts[j], "?") {
      FirstAtEndChar(texts[j], '?');
    }
    var last := texts[|texts| - 1];
    FirstAtEndChar(last, '?');
    IndexMissingChar(last, "?");
    SubstituteSegments(texts, "?", SqlRenders(params));
    if |texts| > 1 {
      assert !IsBlank("?");
      BlankInfix(texts[0], "?", Template(texts[1..], "?"));
    }
    if |params| == 0 {
      assert texts[0..] == texts;
    }
  }

  /** Fewer arguments than placeholders: the later placeholders stay in the output. */
  lemma FormatFewerArgsExample(str: string)
    requires str == "{} {}"
    ensures Formatted(str, "{}", [Int(5)]) == "5 {}"
  {
    assert Strconv.Itoa(5) == "5";
    assert Renders([Int(5)]) == ["5"] + [];
    assert str == "" + "{}" + " {}";
    assert str[0] != WHITE_SPACE;
    FirstAtEndMissing("", "{}");
    SubstituteStep("", "{}", " {}", "5", []);
  }
}
