/**
 * The JavaScript string methods the storefront relies on: `split` on one
 * character, `trim`, `join`, `startsWith`, `includes` and `toLowerCase`.
 */
module Text {

  /** Number of occurrences of `c` in `s`. */
  function Occurrences(s: string, c: char): nat
    decreases |s|
  {
    if |s| == 0 then 0 else (if s[0] == c then 1 else 0) + Occurrences(s[1..], c)
  }

  /**
   * `s.split(c)`: the maximal pieces between occurrences of `c`; an empty
   * string gives one empty piece.
   */
  function Split(s: string, c: char): (r: seq<string>)
    ensures |r| >= 1
    decreases |s|
  {
    if |s| == 0 then [""]
    else if s[0] == c then [""] + Split(s[1..], c)
    else
      var t := Split(s[1..], c);
      [[s[0]] + t[0]] + t[1..]
  }

  /** One piece per separator, plus one; and no piece contains the separator. */
  lemma {:induction false} SplitFacts(s: string, c: char)
    ensures |Split(s, c)| == Occurrences(s, c) + 1
    ensures forall i :: 0 <= i < |Split(s, c)| ==> c !in Split(s, c)[i]
    decreases |s|
  {
    if |s| > 0 {
      SplitFacts(s[1..], c);
      var t := Split(s[1..], c);
      if s[0] == c {
        assert forall i :: 1 <= i < |Split(s, c)| ==> Split(s, c)[i] == t[i - 1];
      } else {
        assert Split(s, c)[0] == [s[0]] + t[0];
        assert forall i :: 1 <= i < |Split(s, c)| ==> Split(s, c)[i] == t[i];
      }
    }
  }

  /** Splitting a string that starts with the separator. */
  lemma SplitSeparatorFirst(b: string, c: char)
    ensures Split([c] + b, c) == [""] + Split(b, c)
  {
    assert ([c] + b)[1..] == b;
  }

  /** Splitting a string that starts with another character. */
  lemma SplitOtherFirst(x: char, b: string, c: char)
    requires x != c
    ensures Split([x] + b, c) == [[x] + Split(b, c)[0]] + Split(b, c)[1..]
  {
    assert ([x] + b)[1..] == b;
  }

  /** A string without the separator splits into itself. */
  lemma {:induction false} SplitNoSeparator(s: string, c: char)
    requires c !in s
    ensures Split(s, c) == [s]
    decreases |s|
  {
    if |s| > 0 {
      SplitNoSeparator(s[1..], c);
      assert [s[0]] + s[1..] == s;
    }
  }

  /** Splitting at a separator splits the two sides independently. */
  lemma {:induction false} SplitAppend(a: string, b: string, c: char)
    ensures Split(a + [c] + b, c) == Split(a, c) + Split(b, c)
    decreases |a|
  {
    if |a| == 0 {
      assert a + [c] + b == [c] + b;
      SplitSeparatorFirst(b, c);
    } else {
      SplitAppend(a[1..], b, c);
      SplitAppendStep(a, b, c);
    }
  }

  /** The inductive step of `SplitAppend`: it holds for `a` when it holds for `a`'s tail. */
  lemma SplitAppendStep(a: string, b: string, c: char)
    requires |a| > 0
    requires Split(a[1..] + [c] + b, c) == Split(a[1..], c) + Split(b, c)
    ensures Split(a + [c] + b, c) == Split(a, c) + Split(b, c)
  {
    HeadAndRest(a, b, c);
    if a[0] == c {
      SplitAppendSeparator(a[1..], a[1..] + [c] + b, Split(b, c), c);
    } else {
      SplitAppendOther(a[0], a[1..], a[1..] + [c] + b, Split(b, c), c);
    }
  }

  /** A non-empty string is its first character before its tail, also with a separator and more after it. */
  lemma HeadAndRest(a: string, b: string, c: char)
    requires |a| > 0
    ensures a == [a[0]] + a[1..]
    ensures a + [c] + b == [a[0]] + (a[1..] + [c] + b)
  {
  }

  /** A leading separator adds an empty first piece, on both sides of the equation. */
  lemma SplitAppendSeparator(t: string, rest: string, right: seq<string>, c: char)
    requires Split(rest, c) == Split(t, c) + right
    ensures Split([c] + rest, c) == Split([c] + t, c) + right
  {
    SplitSeparatorFirst(rest, c);
    SplitSeparatorFirst(t, c);
  }

  /** A leading non-separator joins the first piece, on both sides of the equation. */
  lemma SplitAppendOther(x: char, t: string, rest: string, right: seq<string>, c: char)
    requires x != c
    requires Split(rest, c) == Split(t, c) + right
    ensures Split([x] + rest, c) == Split([x] + t, c) + right
  {
    SplitOtherFirst(x, rest, c);
    SplitOtherFirst(x, t, c);
    JoinFirst([x], Split(t, c), right);
  }

  /** Extending the first element of `u + right` is extending the first element of `u`, then appending `right`. */
  lemma JoinFirst<T>(x: seq<T>, u: seq<seq<T>>, right: seq<seq<T>>)
    requires |u| >= 1
    ensures [x + (u + right)[0]] + (u + right)[1..] == [x + u[0]] + u[1..] + right
  {
    assert (u + right)[0] == u[0];
    assert (u + right)[1..] == u[1..] + right;
  }

  /**
   * The characters `String.prototype.trim` removes: the ECMAScript WhiteSpace
   * and LineTerminator code points.
   */
  predicate IsSpace(ch: char) {
    || ch == ' ' || ch == '\t' || ch == '\n' || ch == '\r'
    || ch == '\U{000B}' || ch == '\U{000C}' || ch == '\U{00A0}' || ch == '\U{FEFF}'
    || ch == '\U{1680}' || ('\U{2000}' <= ch <= '\U{200A}')
    || ch == '\U{2028}' || ch == '\U{2029}' || ch == '\U{202F}' || ch == '\U{205F}'
    || ch == '\U{3000}'
  }

  /** Neither end of `s` is whitespace. */
  predicate IsTrimmed(s: string) {
    |s| == 0 || (!IsSpace(s[0]) && !IsSpace(s[|s| - 1]))
  }

  /** `s` with its leading whitespace removed. */
  function TrimStart(s: string): (r: string)
    ensures |r| == 0 || !IsSpace(r[0])
    ensures |r| <= |s| && r == s[|s| - |r|..]
    ensures forall k :: 0 <= k < |s| - |r| ==> IsSpace(s[k])
    decreases |s|
  {
    if |s| > 0 && IsSpace(s[0]) then TrimStart(s[1..]) else s
  }

  /** `s` with its trailing whitespace removed. */
  function TrimEnd(s: string): (r: string)
    ensures |r| == 0 || !IsSpace(r[|r| - 1])
    ensures |r| <= |s| && r == s[..|r|]
    ensures forall k :: |r| <= k < |s| ==> IsSpace(s[k])
    decreases |s|
  {
    if |s| > 0 && IsSpace(s[|s| - 1]) then TrimEnd(s[..|s| - 1]) else s
  }

  /** `s.trim()`: a contiguous slice of `s` with no whitespace at either end. */
  function Trim(s: string): (r: string)
    ensures IsTrimmed(r)
    ensures forall ch :: ch in r ==> ch in s
    // What is cut away on either side is whitespace.
    ensures exists a, b :: SpaceAround(s, a, b) && r == s[a..b]
  {
    var t := TrimStart(s);
    var r := TrimEnd(t);
    assert forall ch :: ch in r ==> ch in t;
    assert forall ch :: ch in t ==> ch in s;
    assert |r| > 0 ==> r[0] == t[0];
    TrimBothEnds(s, t, r);
    r
  }

  /** A suffix after whitespace, cut before whitespace, is a slice with whitespace only around it. */
  lemma TrimBothEnds(s: string, t: string, r: string)
    requires |t| <= |s| && t == s[|s| - |t|..] && forall k :: 0 <= k < |s| - |t| ==> IsSpace(s[k])
    requires |r| <= |t| && r == t[..|r|] && forall k :: |r| <= k < |t| ==> IsSpace(t[k])
    ensures SpaceAround(s, |s| - |t|, |s| - |t| + |r|) && r == s[|s| - |t|..|s| - |t| + |r|]
  {
    var a := |s| - |t|;
    forall i | 0 <= i < |r| ensures r[i] == s[a + i] {
      assert r[i] == t[i] && t[i] == s[a..][i];
    }
    assert r == s[a..a + |r|];
    forall k | a + |r| <= k < |s| ensures IsSpace(s[k]) {
      assert s[k] == t[k - a];
    }
  }

  /** Only whitespace lies before index `a` and from index `b` on. */
  predicate SpaceAround(s: string, a: int, b: int) {
    && 0 <= a <= b <= |s|
    && (forall k :: 0 <= k < a ==> IsSpace(s[k]))
    && (forall k :: b <= k < |s| ==> IsSpace(s[k]))
  }

  /**
   * The trim is the one slice with whitespace only around it and none at
   * its ends: whatever such slice of `s` is named, `Trim` returns it.
   */
  lemma TrimDetermined(s: string, a: int, b: int)
    requires SpaceAround(s, a, b) && IsTrimmed(s[a..b])
    ensures Trim(s) == s[a..b]
  {
    var r := Trim(s);
    assert IsTrimmed(r);
    var a', b' :| SpaceAround(s, a', b') && r == s[a'..b'];
    SliceDetermined(s, a, b, a', b');
  }

  /** Two slices with whitespace only around them and none at their ends are the same slice. */
  lemma SliceDetermined(s: string, a: int, b: int, a': int, b': int)
    requires SpaceAround(s, a, b) && IsTrimmed(s[a..b])
    requires SpaceAround(s, a', b') && IsTrimmed(s[a'..b'])
    ensures s[a..b] == s[a'..b']
  {
    if a < b && a' < b' {
      // Each slice starts at the first non-space and ends after the last one.
      assert !IsSpace(s[a]) && !IsSpace(s[a']) by {
        assert s[a..b][0] == s[a] && s[a'..b'][0] == s[a'];
      }
      assert !IsSpace(s[b - 1]) && !IsSpace(s[b' - 1]) by {
        assert s[a..b][b - a - 1] == s[b - 1] && s[a'..b'][b' - a' - 1] == s[b' - 1];
      }
      assert a == a' && b == b';
    }
  }

  /** Trimming a trimmed string leaves it alone. */
  lemma TrimTrimmed(s: string)
    requires IsTrimmed(s)
    ensures Trim(s) == s
  {
  }

  /** Leading whitespace never survives a trim. */
  lemma TrimLeadingSpace(ch: char, s: string)
    requires IsSpace(ch)
    ensures Trim([ch] + s) == Trim(s)
  {
    assert ([ch] + s)[1..] == s;
  }

  /** `fs.join(sep)`: "" for no elements. */
  function Join(fs: seq<string>, sep: string): string
    decreases |fs|
  {
    if |fs| == 0 then ""
    else if |fs| == 1 then fs[0]
    else fs[0] + sep + Join(fs[1..], sep)
  }

  /** `s.startsWith(p)`. */
  predicate StartsWith(s: string, p: string) {
    |p| <= |s| && s[..|p|] == p
  }

  /** `s.includes(p)`. */
  predicate Includes(s: string, p: string)
    decreases |s|
  {
    StartsWith(s, p) || (|s| > 0 && Includes(s[1..], p))
  }

  /**
   * `s.toLowerCase()` on the ASCII letters; other characters are kept
   * (full Unicode case mapping is not modelled).
   */
  function ToLower(s: string): (r: string)
    ensures |r| == |s|
    ensures forall i :: 0 <= i < |s| ==> ('A' <= s[i] <= 'Z' ==> r[i] == (s[i] as int + 32) as char)
    ensures forall i :: 0 <= i < |s| ==> (!('A' <= s[i] <= 'Z') ==> r[i] == s[i])
  {
    seq(|s|, i requires 0 <= i < |s| => if 'A' <= s[i] <= 'Z' then (s[i] as int + 32) as char else s[i])
  }
}
