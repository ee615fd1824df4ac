/**
 * The JavaScript string operations the plugin relies on, on `seq<char>`:
 * `Array.prototype.join`, `String.prototype.split` with a one-character
 * separator, and `String.prototype.trim`.
 */
module Text {

  /** The ECMAScript WhiteSpace and LineTerminator code points, which `trim` strips. */
  predicate IsWhitespace(c: char) {
    || c == '\t' || c == '\n' || c == '\U{000B}' || c == '\U{000C}' || c == '\r' || c == ' '
    || c == '\U{00A0}' || c == '\U{1680}' || ('\U{2000}' <= c <= '\U{200A}')
    || c == '\U{2028}' || c == '\U{2029}' || c == '\U{202F}' || c == '\U{205F}'
    || c == '\U{3000}' || c == '\U{FEFF}'
  }

  predicate AllWhitespace(s: string) {
    forall k :: 0 <= k < |s| ==> IsWhitespace(s[k])
  }

  /** Neither the first nor the last character of `s` is whitespace. */
  predicate IsTrimmed(s: string) {
    s == [] || (!IsWhitespace(s[0]) && !IsWhitespace(s[|s| - 1]))
  }

  /** `w` is the slice of `s` that starts at offset `i`. */
  predicate OccursAt(w: string, s: string, i: int) {
    0 <= i && i + |w| <= |s| && s[i..i + |w|] == w
  }

  /** `r` is `s` with a whitespace-only prefix of length `i` and a whitespace-only suffix removed. */
  predicate TrimmedAt(s: string, r: string, i: int) {
    OccursAt(r, s, i) && AllWhitespace(s[..i]) && AllWhitespace(s[i + |r|..])
  }

  function TrimStart(s: string): (r: string)
    ensures |r| <= |s| && r == s[|s| - |r|..]
    ensures AllWhitespace(s[..|s| - |r|])
    ensures r != [] ==> !IsWhitespace(r[0])
  {
    if s != [] && IsWhitespace(s[0]) then
      var r := TrimStart(s[1..]);
      assert s[..|s| - |r|] == [s[0]] + s[1..][..|s| - 1 - |r|];
      r
    else
      s
  }

  function TrimEnd(s: string): (r: string)
    ensures |r| <= |s| && r == s[..|r|]
    ensures AllWhitespace(s[|r|..])
    ensures r != [] ==> !IsWhitespace(r[|r| - 1])
  {
    if s != [] && IsWhitespace(s[|s| - 1]) then
      var r := TrimEnd(s[..|s| - 1]);
      assert s[|r|..] == s[..|s| - 1][|r|..] + [s[|s| - 1]];
      r
    else
      s
  }

  /** `String.prototype.trim`: strips leading and trailing whitespace and nothing else. */
  function Trim(s: string): (r: string)
    ensures IsTrimmed(r)
    ensures TrimmedAt(s, r, |s| - |TrimStart(s)|)
    ensures r == [] <==> AllWhitespace(s)
  {
    var r := TrimEnd(TrimStart(s));
    TrimSlices(s);
    TrimmedEmptyIff(s, r, |s| - |TrimStart(s)|);
    r
  }

  lemma TrimSlices(s: string)
    ensures TrimmedAt(s, TrimEnd(TrimStart(s)), |s| - |TrimStart(s)|)
  {
    var t := TrimStart(s);
    var r := TrimEnd(t);
    var i := |s| - |t|;
    assert s[i..] == t;
    SliceOfSuffix(s, t, i, r);
  }

  /** Slices of a suffix `t` of `s` are slices of `s` shifted by where `t` starts. */
  lemma SliceOfSuffix(s: string, t: string, i: int, r: string)
    requires 0 <= i <= |s| && s[i..] == t
    requires |r| <= |t| && r == t[..|r|] && AllWhitespace(t[|r|..])
    ensures OccursAt(r, s, i) && AllWhitespace(s[i + |r|..])
  {
    assert s[i..i + |r|] == t[..|r|];
    assert s[i + |r|..] == t[|r|..];
  }

  /** A trimmed slice that leaves only whitespace around it is empty exactly when `s` is all whitespace. */
  lemma TrimmedEmptyIff(s: string, r: string, i: int)
    requires TrimmedAt(s, r, i) && IsTrimmed(r)
    ensures r == [] <==> AllWhitespace(s)
  {
    if r == [] {
      EmptyTrimAllWhitespace(s, i);
    } else {
      assert s[i] == r[0];
    }
  }

  lemma EmptyTrimAllWhitespace(s: string, i: int)
    requires TrimmedAt(s, [], i)
    ensures AllWhitespace(s)
  {
    assert s == s[..i] + s[i..];
  }

  /** Trimming changes nothing about a string that is already trimmed. */
  lemma TrimOfTrimmed(s: string)
    requires IsTrimmed(s)
    ensures Trim(s) == s
  {
  }

  /**
   * Trimming is determined by its contract: any trimmed slice of `s` that
   * leaves only whitespace on both sides is `Trim(s)`.
   */
  lemma TrimUnique(s: string, r: string, i: int)
    requires IsTrimmed(r) && TrimmedAt(s, r, i)
    ensures Trim(s) == r
  {
    var t := Trim(s);
    var j := |s| - |TrimStart(s)|;
    if r == [] {
      EmptyTrimAllWhitespace(s, i);
    } else {
      assert s[i] == r[0];
      TrimmedStartsAtFirst(s, r, i, t, j);
      TrimmedStartsAtFirst(s, t, j, r, i);
      TrimmedEndsAtLast(s, r, i, t, j);
      TrimmedEndsAtLast(s, t, j, r, i);
    }
  }

  /** Two trimmed slices of `s` with only whitespace before them start at the same place. */
  lemma TrimmedStartsAtFirst(s: string, r: string, i: int, t: string, j: int)
    requires TrimmedAt(s, r, i) && TrimmedAt(s, t, j)
    requires r != [] && IsTrimmed(t) && t != []
    ensures i <= j
  {
    assert s[j] == t[0];
    forall k | 0 <= k < i
      ensures IsWhitespace(s[k])
    {
      assert s[..i][k] == s[k];
    }
  }

  /** Two trimmed slices of `s` with only whitespace after them end at the same place. */
  lemma TrimmedEndsAtLast(s: string, r: string, i: int, t: string, j: int)
    requires TrimmedAt(s, r, i) && TrimmedAt(s, t, j)
    requires r != [] && IsTrimmed(t) && t != []
    ensures j + |t| <= i + |r|
  {
    assert s[j + |t| - 1] == t[|t| - 1];
    forall k | i + |r| <= k < |s|
      ensures IsWhitespace(s[k])
    {
      assert s[i + |r|..][k - (i + |r|)] == s[k];
    }
  }

  /** `Array.prototype.join`: the parts with `sep` between consecutive ones. */
  function Join(parts: seq<string>, sep: string): (r: string)
    ensures parts != [] ==> OccursAt(parts[0], r, 0)
  {
    if |parts| == 0 then ""
    else if |parts| == 1 then parts[0]
    else parts[0] + sep + Join(parts[1..], sep)
  }

  /** Joining a part in front of a non-empty list puts one separator between them. */
  lemma JoinCons(x: string, xs: seq<string>, sep: string)
    requires xs != []
    ensures Join([x] + xs, sep) == x + sep + Join(xs, sep)
  {
    assert ([x] + xs)[1..] == xs;
  }

  /** A join of four parts, written out. */
  lemma JoinOfFour(a: string, b: string, c: string, d: string, sep: string)
    ensures Join([a, b, c, d], sep) == a + sep + b + sep + c + sep + d
  {
    JoinCons(c, [d], sep);
    assert [b, c, d] == [b] + [c, d];
    JoinCons(b, [c, d], sep);
    assert [a, b, c, d] == [a] + [b, c, d];
    JoinCons(a, [b, c, d], sep);
  }

  /**
   * A join of two parts, then a list whose first part has `t` glued to its
   * front, then one last part, written out.
   */
  lemma JoinFramed(a: string, b: string, t: string, xs: seq<string>, d: string, sep: string)
    requires xs != []
    ensures Join([a] + ([b] + (([t + xs[0]] + xs[1..]) + [d])), sep) == a + sep + b + sep + t + Join(xs, sep) + sep + d
  {
    var joined := Join(xs, sep);
    var body := [t + xs[0]] + xs[1..];
    var tail := body + [d];
    JoinPrefixFirst(t, xs, sep);
    JoinSnoc(body, d, sep);
    assert Join(tail, sep) == t + joined + sep + d;
    JoinCons(b, tail, sep);
    assert Join([b] + tail, sep) == b + sep + (t + joined + sep + d);
    JoinCons(a, [b] + tail, sep);
    Regroup(a, b, t, joined, d, sep);
  }

  lemma Regroup(a: string, b: string, t: string, j: string, d: string, sep: string)
    ensures a + sep + (b + sep + (t + j + sep + d)) == a + sep + b + sep + t + j + sep + d
  {
  }

  /** Joining a part after a non-empty list puts one separator between them. */
  lemma {:induction false} JoinSnoc(xs: seq<string>, y: string, sep: string)
    requires xs != []
    ensures Join(xs + [y], sep) == Join(xs, sep) + sep + y
  {
    if |xs| == 1 {
      assert xs + [y] == [xs[0]] + [y];
    } else {
      assert (xs + [y])[1..] == xs[1..] + [y];
      JoinSnoc(xs[1..], y, sep);
    }
  }

  /** Text glued to the front of the first part ends up at the front of the join. */
  lemma JoinPrefixFirst(t: string, xs: seq<string>, sep: string)
    requires xs != []
    ensures Join([t + xs[0]] + xs[1..], sep) == t + Join(xs, sep)
  {
    if |xs| > 1 {
      JoinCons(t + xs[0], xs[1..], sep);
    }
  }

  /** The first position of `c` in `s`. */
  function IndexOf(s: string, c: char): (i: nat)
    requires c in s
    ensures i < |s| && s[i] == c && c !in s[..i]
  {
    if s[0] == c then 0 else 1 + IndexOf(s[1..], c)
  }

  /**
   * `String.prototype.split` with a one-character separator: the maximal
   * separator-free pieces, so that joining them back with the separator
   * gives `s`. The empty string splits into one empty piece.
   */
  function Split(s: string, sep: char): (r: seq<string>)
    ensures |r| >= 1
    ensures forall k :: 0 <= k < |r| ==> sep !in r[k]
    ensures Join(r, [sep]) == s
    decreases |s|
  {
    if sep !in s then [s]
    else
      var i := IndexOf(s, sep);
      assert s == s[..i] + [sep] + s[i + 1..];
      [s[..i]] + Split(s[i + 1..], sep)
  }

  /** Splitting a join of separator-free parts gives the parts back. */
  lemma {:induction false} SplitJoin(parts: seq<string>, sep: char)
    requires |parts| >= 1
    requires forall k :: 0 <= k < |parts| ==> sep !in parts[k]
    ensures Split(Join(parts, [sep]), sep) == parts
  {
    if |parts| > 1 {
      var s := Join(parts, [sep]);
      var n := |parts[0]|;
      assert s == parts[0] + [sep] + Join(parts[1..], [sep]);
      assert s[n] == sep;
      var i := IndexOf(s, sep);
      assert s[..n] == parts[0];
      assert s[..i] == parts[0];
      assert s[i + 1..] == Join(parts[1..], [sep]);
      SplitJoin(parts[1..], sep);
    }
  }

  /** `w` occurring in `u` also occurs in `t + u + v`, shifted by `|t|`. */
  lemma OccursInContext(w: string, t: string, u: string, v: string, i: int)
    requires OccursAt(w, u, i)
    ensures OccursAt(w, t + u + v, |t| + i)
  {
    assert (t + u + v)[|t| + i..|t| + i + |w|] == u[i..i + |w|];
  }

  /** Every part appears, verbatim, in a join of the parts. */
  lemma {:induction false} JoinContains(parts: seq<string>, sep: string, k: nat)
    requires k < |parts|
    ensures exists i :: OccursAt(parts[k], Join(parts, sep), i)
  {
    if |parts| == 1 {
      assert OccursAt(parts[0], Join(parts, sep), 0);
    } else if k == 0 {
      OccursInContext(parts[0], [], parts[0], sep + Join(parts[1..], sep), 0);
      assert [] + parts[0] + (sep + Join(parts[1..], sep)) == Join(parts, sep);
    } else {
      JoinContains(parts[1..], sep, k - 1);
      var i :| OccursAt(parts[k], Join(parts[1..], sep), i);
      OccursInContext(parts[k], parts[0] + sep, Join(parts[1..], sep), [], i);
      assert parts[0] + sep + Join(parts[1..], sep) + [] == Join(parts, sep);
    }
  }
}
