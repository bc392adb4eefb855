/**
 * A product's feature list as text: the admin form edits it as one
 * comma-separated line, and the product page splits multi-line entries for
 * display.
 */
module Features {
  import opened Wrappers
  import opened Seqs
  import opened Text

  /** `pieces.map(f => f.trim())`. */
  function TrimAll(pieces: seq<string>): (r: seq<string>)
    ensures |r| == |pieces|
    ensures forall i :: 0 <= i < |r| ==> r[i] == Trim(pieces[i])
    decreases |pieces|
  {
    if |pieces| == 0 then [] else [Trim(pieces[0])] + TrimAll(pieces[1..])
  }

  lemma TrimAllCons(f: string, xs: seq<string>)
    ensures TrimAll([f] + xs) == [Trim(f)] + TrimAll(xs)
  {
    assert ([f] + xs)[1..] == xs;
  }

  /** `text.split(",").map(f => f.trim())`, as the admin form saves it. */
  function ParseFeatures(text: string): (r: seq<string>)
    // One feature per comma, plus one.
    ensures |r| == Occurrences(text, ',') + 1
    ensures forall i :: 0 <= i < |r| ==> ',' !in r[i] && IsTrimmed(r[i])
    // Feature i is the i-th comma-separated piece with its surrounding whitespace cut.
    ensures |r| == |Split(text, ',')| && forall i :: 0 <= i < |r| ==> r[i] == Trim(Split(text, ',')[i])
  {
    var pieces := Split(text, ',');
    SplitFacts(text, ',');
    TrimAllClean(pieces, ',');
    TrimAll(pieces)
  }

  /** Trimming pieces that lack a character gives trimmed pieces that still lack it. */
  lemma TrimAllClean(pieces: seq<string>, c: char)
    requires forall i :: 0 <= i < |pieces| ==> c !in pieces[i]
    ensures forall i :: 0 <= i < |TrimAll(pieces)| ==> c !in TrimAll(pieces)[i] && IsTrimmed(TrimAll(pieces)[i])
  {
    var r := TrimAll(pieces);
    forall i | 0 <= i < |r|
      ensures c !in r[i] && IsTrimmed(r[i])
    {
      assert r[i] == Trim(pieces[i]);
    }
  }

  /** Two features typed with a space on each side of the comma save as the two bare features. */
  lemma ParseSpacedPair(x: string, y: string)
    requires ',' !in x && ',' !in y && IsTrimmed(x) && IsTrimmed(y)
    ensures ParseFeatures(x + " , " + y) == [x, y]
  {
    SplitSpacedPair(x, y);
    ParseTwoPieces(x + " , " + y, x + [' '], [' '] + y);
    TrimSpaceAfter(x);
    TrimLeadingSpace(' ', y);
    TrimTrimmed(y);
  }

  /** The two pieces of a spaced pair keep their spaces. */
  lemma SplitSpacedPair(x: string, y: string)
    requires ',' !in x && ',' !in y
    ensures Split(x + " , " + y, ',') == [x + [' '], [' '] + y]
  {
    var left := x + [' '];
    var right := [' '] + y;
    assert x + " , " + y == left + [','] + right;
    assert ',' !in left && ',' !in right;
    SplitAppend(left, right, ',');
    SplitNoSeparator(left, ',');
    SplitNoSeparator(right, ',');
  }

  /** A text of two pieces saves as the two trimmed pieces. */
  lemma ParseTwoPieces(text: string, p: string, q: string)
    requires Split(text, ',') == [p, q]
    ensures ParseFeatures(text) == [Trim(p), Trim(q)]
  {
    var r := ParseFeatures(text);
    assert |r| == 2;
    assert r[0] == Trim(Split(text, ',')[0]) == Trim(p);
    assert r[1] == Trim(Split(text, ',')[1]) == Trim(q);
  }

  /** Trailing whitespace never survives a trim. */
  lemma TrimSpaceAfter(x: string)
    requires IsTrimmed(x)
    ensures Trim(x + [' ']) == x
  {
    TrimDetermined(x + [' '], 0, |x|);
    assert (x + [' '])[0..|x|] == x;
  }

  /** The separator the edit text puts between features. */
  const FeatureSeparator := ", "

  /** `feature ? feature.join(", ") : ""`, as the admin form shows it for editing. */
  function JoinFeatures(feature: Option<seq<string>>): string {
    if feature.Some? then Join(feature.value, FeatureSeparator) else ""
  }

  /** Parsing a piece with a leading space trims the space away. */
  lemma ParseDropsLeadingSpace(text: string)
    ensures ParseFeatures([' '] + text) == ParseFeatures(text)
  {
    var t := Split(text, ',');
    assert ([' '] + text)[0] == ' ' && ([' '] + text)[1..] == text;
    assert Split([' '] + text, ',') == [[' '] + t[0]] + t[1..];
    TrimLeadingSpace(' ', t[0]);
    assert TrimAll([[' '] + t[0]] + t[1..])[1..] == TrimAll(t[1..]);
  }

  /** Splitting after the first feature's comma: the first feature, then the rest. */
  lemma ParseCons(f: string, rest: string)
    requires ',' !in f && IsTrimmed(f)
    ensures ParseFeatures(f + [','] + rest) == [f] + ParseFeatures(rest)
  {
    var x := Split(rest, ',');
    SplitAppend(f, rest, ',');
    SplitNoSeparator(f, ',');
    assert Split(f + [','] + rest, ',') == [f] + x;
    TrimAllCons(f, x);
    TrimTrimmed(f);
  }

  /** `join` of two or more elements: the first, the separator, and the join of the rest. */
  lemma JoinCons(fs: seq<string>, sep: string)
    requires |fs| >= 2
    ensures Join(fs, sep) == fs[0] + sep + Join(fs[1..], sep)
  {
  }

  /** A single trimmed feature without a comma parses to itself. */
  lemma ParseSingle(f: string)
    requires ',' !in f && IsTrimmed(f)
    ensures ParseFeatures(f) == [f]
  {
    SplitNoSeparator(f, ',');
    TrimAllCons(f, []);
    TrimTrimmed(f);
  }

  /** The edit text of two or more features: the first, a comma, a space, and the rest's text. */
  lemma JoinHead(fs: seq<string>)
    requires |fs| >= 2
    ensures Join(fs, FeatureSeparator) == fs[0] + [','] + ([' '] + Join(fs[1..], FeatureSeparator))
  {
    JoinCons(fs, FeatureSeparator);
    var j := Join(fs[1..], FeatureSeparator);
    assert forall i :: 0 <= i < |fs[0]| + 2 + |j| ==> (fs[0] + FeatureSeparator + j)[i] == (fs[0] + [','] + ([' '] + j))[i];
  }

  /** After the first feature's comma the space is trimmed away with the next feature. */
  lemma ParseAfterSeparator(f: string, rest: string)
    requires ',' !in f && IsTrimmed(f)
    ensures ParseFeatures(f + [','] + ([' '] + rest)) == [f] + ParseFeatures(rest)
  {
    ParseCons(f, [' '] + rest);
    ParseDropsLeadingSpace(rest);
  }

  /** The conditions on a feature list carry over to its tail. */
  lemma TailClean(fs: seq<string>)
    requires |fs| > 0
    requires forall i :: 0 <= i < |fs| ==> ',' !in fs[i] && IsTrimmed(fs[i])
    ensures forall i :: 0 <= i < |fs[1..]| ==> ',' !in fs[1..][i] && IsTrimmed(fs[1..][i])
  {
  }

  /**
   * Editing then saving without a change gives the same list back, for a
   * non-empty list of trimmed features with no commas in them.
   */
  lemma {:induction false} JoinThenParse(fs: seq<string>)
    requires |fs| > 0
    requires forall i :: 0 <= i < |fs| ==> ',' !in fs[i] && IsTrimmed(fs[i])
    ensures ParseFeatures(Join(fs, FeatureSeparator)) == fs
    decreases |fs|
  {
    if |fs| == 1 {
      assert Join(fs, FeatureSeparator) == fs[0];
      ParseSingle(fs[0]);
    } else {
      TailClean(fs);
      JoinThenParse(fs[1..]);
      JoinThenParseStep(fs);
    }
  }

  /** The inductive step: a list round-trips when its tail does. */
  lemma JoinThenParseStep(fs: seq<string>)
    requires |fs| >= 2 && ',' !in fs[0] && IsTrimmed(fs[0])
    requires ParseFeatures(Join(fs[1..], FeatureSeparator)) == fs[1..]
    ensures ParseFeatures(Join(fs, FeatureSeparator)) == fs
  {
    JoinHead(fs);
    ParseAfterSeparator(fs[0], Join(fs[1..], FeatureSeparator));
    assert [fs[0]] + fs[1..] == fs;
  }

  /** The admin form's edit-then-save round trip, as the form calls it. */
  lemma EditThenSave(fs: seq<string>)
    requires |fs| > 0
    requires forall i :: 0 <= i < |fs| ==> ',' !in fs[i] && IsTrimmed(fs[i])
    ensures ParseFeatures(JoinFeatures(Some(fs))) == fs
  {
    JoinThenParse(fs);
  }

  /**
   * An empty or missing list does not come back: its edit text is empty,
   * and splitting that gives one empty feature. The admin form's required
   * rule refuses the empty text before it reaches the split.
   */
  lemma EmptyListSavesOneBlank()
    ensures ParseFeatures(JoinFeatures(Some([]))) == [""]
    ensures ParseFeatures(JoinFeatures(None)) == [""]
  {
    assert JoinFeatures(Some([])) == "" && JoinFeatures(None) == "";
    assert Split("", ',') == [""];
    TrimAllCons("", []);
    TrimTrimmed("");
  }

  /** The edit text is empty exactly for no features or a single empty one. */
  lemma {:induction false} JoinEmpty(fs: seq<string>)
    ensures Join(fs, FeatureSeparator) == "" <==> |fs| == 0 || fs == [""]
  {
    if |fs| >= 2 {
      JoinHead(fs);
    }
  }

  /** A saved list is a fixed point: saving its edit text again gives it back. */
  lemma ParseIsStable(text: string)
    ensures ParseFeatures(JoinFeatures(Some(ParseFeatures(text)))) == ParseFeatures(text)
  {
    EditThenSave(ParseFeatures(text));
  }

  /** A line survives display splitting unless it is blank after trimming. */
  predicate NotBlank(line: string) {
    Trim(line) != ""
  }

  /** The non-blank lines of a text: in order, without line breaks, exactly the non-blank ones. */
  lemma NonBlankLines(f: string)
    ensures forall i :: 0 <= i < |Keep(Split(f, '\n'), NotBlank)| ==> '\n' !in Keep(Split(f, '\n'), NotBlank)[i]
    ensures IsSubsequence(Keep(Split(f, '\n'), NotBlank), Split(f, '\n'))
    ensures forall x :: x in Keep(Split(f, '\n'), NotBlank) <==> x in Split(f, '\n') && NotBlank(x)
  {
    var lines := Split(f, '\n');
    var r := Keep(lines, NotBlank);
    SplitFacts(f, '\n');
    KeepMembers(lines, NotBlank);
    KeepIsSubsequence(lines, NotBlank);
    forall i | 0 <= i < |r| ensures '\n' !in r[i] {
      assert r[i] in r;
    }
  }

  /** One entry of `flatMap`: a multi-line entry becomes its non-blank lines. */
  function FormatOne(f: string): (r: seq<string>)
    ensures forall i :: 0 <= i < |r| ==> '\n' !in r[i]
    ensures '\n' !in f ==> r == [f]
    // A multi-line entry keeps its lines in order and drops exactly the blank ones.
    ensures '\n' in f ==> IsSubsequence(r, Split(f, '\n'))
    ensures '\n' in f ==> forall x :: x in r <==> x in Split(f, '\n') && NotBlank(x)
    // Every copy of a non-blank line stays.
    ensures '\n' in f ==> forall x :: multiset(r)[x] == if NotBlank(x) then multiset(Split(f, '\n'))[x] else 0
  {
    if '\n' in f then
      NonBlankLines(f);
      KeepCounts(Split(f, '\n'), NotBlank);
      Keep(Split(f, '\n'), NotBlank)
    else [f]
  }

  /** `flatMap(FormatOne)`. */
  function FlatFormat(fs: seq<string>): (r: seq<string>)
    ensures forall i :: 0 <= i < |r| ==> '\n' !in r[i]
    decreases |fs|
  {
    if |fs| == 0 then []
    else
      var head := FormatOne(fs[0]);
      var tail := FlatFormat(fs[1..]);
      NoBreaksConcat(head, tail);
      head + tail
  }

  /** Two runs of lines without line breaks make one. */
  lemma NoBreaksConcat(head: seq<string>, tail: seq<string>)
    requires forall i :: 0 <= i < |head| ==> '\n' !in head[i]
    requires forall i :: 0 <= i < |tail| ==> '\n' !in tail[i]
    ensures forall i :: 0 <= i < |head + tail| ==> '\n' !in (head + tail)[i]
  {
    assert forall i :: |head| <= i < |head + tail| ==> (head + tail)[i] == tail[i - |head|];
  }

  /** `formatFeatures`: nothing for a missing or empty list, otherwise the flattened entries. */
  function FormatFeatures(features: Option<seq<string>>): (r: seq<string>)
    ensures features.None? || |features.value| == 0 ==> r == []
    ensures forall i :: 0 <= i < |r| ==> '\n' !in r[i]
  {
    if features.None? || |features.value| == 0 then [] else FlatFormat(features.value)
  }

  /** Entries without a line break pass through unchanged and in order. */
  lemma {:induction false} SingleLinesPassThrough(fs: seq<string>)
    requires forall i :: 0 <= i < |fs| ==> '\n' !in fs[i]
    ensures FlatFormat(fs) == fs
    decreases |fs|
  {
    if |fs| > 0 {
      SingleLinesPassThrough(fs[1..]);
      assert [fs[0]] + fs[1..] == fs;
    }
  }

  /** The display list of two runs of entries is the two display lists in a row. */
  lemma {:induction false} FormatConcat(a: seq<string>, b: seq<string>)
    ensures FlatFormat(a + b) == FlatFormat(a) + FlatFormat(b)
    decreases |a|
  {
    if |a| == 0 {
      assert a + b == b;
    } else {
      assert (a + b)[0] == a[0];
      assert (a + b)[1..] == a[1..] + b;
      FormatConcat(a[1..], b);
    }
  }

  /** A two-line entry with both lines filled shows as the two lines. */
  lemma TwoLines(x: string, y: string)
    requires '\n' !in x && '\n' !in y && NotBlank(x) && NotBlank(y)
    ensures FormatOne(x + "\n" + y) == [x, y]
  {
    assert x + "\n" + y == x + ['\n'] + y;
    assert '\n' in x + "\n" + y by {
      assert (x + "\n" + y)[|x|] == '\n';
    }
    SplitAppend(x, y, '\n');
    SplitNoSeparator(x, '\n');
    SplitNoSeparator(y, '\n');
    assert [x] + [y] == [x, y];
    KeepCons(x, [y], NotBlank);
    KeepCons(y, [], NotBlank);
  }
}
