/** `simple_optimize_markdown` (main.py:28-39): the clean-up applied to the
    generated Markdown. Each of its three steps is an explicit function, and the
    lemmas below state what the three together guarantee. */
module Normalise {
  import opened Text

  // ---------------------------------------------------------------------
  // Step 2: re.sub(r"\n{3,}", "\n\n", text)
  // ---------------------------------------------------------------------

  /** The end of the run of `c` characters that starts at index `i`. */
  function RunEnd(s: string, i: nat, c: char): (n: nat)
    requires i <= |s|
    ensures i <= n <= |s|
    ensures forall k :: i <= k < n ==> s[k] == c
    ensures n < |s| ==> s[n] != c
    decreases |s| - i
  {
    if i < |s| && s[i] == c then RunEnd(s, i + 1, c) else i
  }

  /** The number of `c` characters `s` starts with. */
  function LeadingRun(s: string, c: char): (k: nat)
    ensures k <= |s|
    ensures forall i :: 0 <= i < k ==> s[i] == c
    ensures k < |s| ==> s[k] != c
  {
    RunEnd(s, 0, c)
  }

  /** `re.sub(r"\n{3,}", "\n\n", s)`. The greedy pattern, scanning left to
      right, matches exactly the maximal runs of three or more newlines, so
      each such run becomes two newlines and shorter runs stay as they are. */
  function CollapseNewlines(s: string): (r: string)
    ensures forall c :: c in r ==> c in s
    ensures s != [] && s[0] != '\n' ==> r != [] && r[0] == s[0]
    decreases |s|
  {
    if s == [] then []
    else if s[0] != '\n' then [s[0]] + CollapseNewlines(s[1..])
    else
      var k := LeadingRun(s, '\n');
      (if k >= 3 then "\n\n" else s[..k]) + CollapseNewlines(s[k..])
  }

  /** No three consecutive newline characters occur in `s`. */
  predicate NoTripleNewline(s: string) {
    forall i :: 0 <= i < |s| - 2 ==> !(s[i] == '\n' && s[i + 1] == '\n' && s[i + 2] == '\n')
  }

  lemma NoTripleSuffix(s: string, j: nat)
    requires j <= |s| && NoTripleNewline(s)
    ensures NoTripleNewline(s[j..])
  {
    forall i | 0 <= i < |s[j..]| - 2
      ensures !(s[j..][i] == '\n' && s[j..][i + 1] == '\n' && s[j..][i + 2] == '\n')
    {
      assert s[j..][i] == s[j + i] && s[j..][i + 1] == s[j + i + 1] && s[j..][i + 2] == s[j + i + 2];
    }
  }

  /** At most two newlines in front of a text without newline triples that
      does not itself start with a newline make no triple. */
  lemma NoTripleAfterShortRun(a: string, b: string)
    requires |a| <= 2 && NoTripleNewline(b) && (b == [] || b[0] != '\n')
    ensures NoTripleNewline(a + b)
  {
    var x := a + b;
    forall i | 0 <= i < |x| - 2 ensures !(x[i] == '\n' && x[i + 1] == '\n' && x[i + 2] == '\n') {
      if i >= |a| {
        assert x[i] == b[i - |a|] && x[i + 1] == b[i - |a| + 1] && x[i + 2] == b[i - |a| + 2];
      } else if i + 1 == |a| {
        assert x[i + 1] == b[0];
      } else {
        assert x[i + 2] == b[0];
      }
    }
  }

  /** A character other than a newline in front of a text without newline
      triples makes no triple. */
  lemma NoTripleAfterChar(c: char, b: string)
    requires c != '\n' && NoTripleNewline(b)
    ensures NoTripleNewline([c] + b)
  {
    var x := [c] + b;
    forall i | 0 <= i < |x| - 2 ensures !(x[i] == '\n' && x[i + 1] == '\n' && x[i + 2] == '\n') {
      if i >= 1 {
        assert x[i] == b[i - 1] && x[i + 1] == b[i] && x[i + 2] == b[i + 1];
      }
    }
  }

  /** After collapsing, no three newlines are adjacent anywhere. */
  lemma {:induction false} CollapseLeavesNoTriple(s: string)
    ensures NoTripleNewline(CollapseNewlines(s))
    decreases |s|
  {
    if s == [] {
    } else if s[0] != '\n' {
      CollapseLeavesNoTriple(s[1..]);
      NoTripleAfterChar(s[0], CollapseNewlines(s[1..]));
    } else {
      var k := LeadingRun(s, '\n');
      CollapseLeavesNoTriple(s[k..]);
      NoTripleAfterShortRun(if k >= 3 then "\n\n" else s[..k], CollapseNewlines(s[k..]));
    }
  }

  /** Text that has no newline triple is left exactly as it is. */
  lemma {:induction false} CollapseKeepsShortRuns(s: string)
    requires NoTripleNewline(s)
    ensures CollapseNewlines(s) == s
    decreases |s|
  {
    if s == [] {
    } else if s[0] != '\n' {
      NoTripleSuffix(s, 1);
      CollapseKeepsShortRuns(s[1..]);
      assert s == [s[0]] + s[1..];
    } else {
      var k := LeadingRun(s, '\n');
      assert |s| >= 3 ==> !(s[0] == '\n' && s[1] == '\n' && s[2] == '\n');
      assert k <= 2;
      NoTripleSuffix(s, k);
      CollapseKeepsShortRuns(s[k..]);
      assert s == s[..k] + s[k..];
    }
  }

  /** Collapsing deletes newlines only: with every newline removed, the text
      before and after is the same. */
  lemma {:induction false} CollapseRemovesOnlyNewlines(s: string)
    ensures Without(CollapseNewlines(s), '\n') == Without(s, '\n')
    decreases |s|
  {
    if s == [] {
    } else if s[0] != '\n' {
      CollapseRemovesOnlyNewlines(s[1..]);
      var t := CollapseNewlines(s[1..]);
      assert ([s[0]] + t)[1..] == t;
    } else {
      var k := LeadingRun(s, '\n');
      var head := if k >= 3 then "\n\n" else s[..k];
      var t := CollapseNewlines(s[k..]);
      CollapseRemovesOnlyNewlines(s[k..]);
      WithoutDropsPrefix(s, k, '\n');
      assert (head + t)[|head|..] == t;
      WithoutDropsPrefix(head + t, |head|, '\n');
    }
  }

  /** A non-empty run of newlines in front of text that does not start with
      a newline is collapsed on its own. */
  lemma CollapseRunPrefix(p: string, b: string)
    requires p != [] && (forall i :: 0 <= i < |p| ==> p[i] == '\n')
    requires b == [] || b[0] != '\n'
    ensures CollapseNewlines(p + b) == (if |p| >= 3 then "\n\n" else p) + CollapseNewlines(b)
  {
    var x := p + b;
    assert LeadingRun(x, '\n') == |p| by {
      if b != [] { assert x[|p|] == b[0]; }
      assert forall i :: 0 <= i < |p| ==> x[i] == p[i];
    }
    assert x[..|p|] == p;
    assert x[|p|..] == b;
  }

  /** A run of `k` newlines in front of text that does not start with a
      newline becomes two newlines when `k` is three or more and is kept
      otherwise. */
  lemma {:induction false} CollapseRun(k: nat, b: string)
    requires b == [] || b[0] != '\n'
    ensures CollapseNewlines(Repeat('\n', k) + b)
         == (if k >= 3 then "\n\n" else Repeat('\n', k)) + CollapseNewlines(b)
  {
    if k == 0 {
      assert Repeat('\n', k) + b == b;
    } else {
      CollapseRunPrefix(Repeat('\n', k), b);
    }
  }

  /** Five consecutive newlines collapse to two. */
  lemma CollapseFiveNewlinesExample()
    ensures CollapseNewlines("a\n\n\n\n\nb") == "a\n\nb"
  {
    var x := "a\n\n\n\n\nb";
    assert x[1..] == Repeat('\n', 5) + "b";
    CollapseRun(5, "b");
    assert "b"[1..] == [];
  }

  // ---------------------------------------------------------------------
  // Step 3: re.sub(r"^(#{1,6})([^#\s])", r"\1 \2", text, flags=re.MULTILINE)
  // ---------------------------------------------------------------------

  /** The pattern's effect on one line. Because `#{1,6}` is followed by a
      character that cannot be '#', the only way to match is to take all
      the line's leading hashes, so the line matches exactly when it starts
      with one to six hashes followed by a character that is neither '#'
      nor whitespace; the replacement puts one space between them. */
  function FixLine(line: string): (r: string)
    ensures |line| <= |r| <= |line| + 1
    ensures forall c :: c in r ==> c in line || c == ' '
    ensures r == [] <==> line == []
  {
    var k := LeadingRun(line, '#');
    if 1 <= k <= 6 && k < |line| && !IsSpace(line[k]) then line[..k] + " " + line[k..] else line
  }

  /** The index of the first newline of `s` at or after `i` (`|s|` when
      there is none). */
  function LineEnd(s: string, i: nat): (n: nat)
    requires i <= |s|
    ensures i <= n <= |s|
    ensures forall k :: i <= k < n ==> s[k] != '\n'
    ensures n < |s| ==> s[n] == '\n'
    decreases |s| - i
  {
    if i == |s| || s[i] == '\n' then i else LineEnd(s, i + 1)
  }

  /** The number of characters before the first newline of `s` (all of
      them when there is none). */
  function LineLength(s: string): (n: nat)
    ensures n <= |s|
    ensures forall i :: 0 <= i < n ==> s[i] != '\n'
    ensures n < |s| ==> s[n] == '\n'
  {
    LineEnd(s, 0)
  }

  /** With `re.MULTILINE`, `^` matches at the start of the text and after
      every newline, and no match can cross a newline (it is whitespace), so
      the substitution rewrites each line on its own. */
  function FixHeadings(s: string): (r: string)
    ensures forall c :: c in r ==> c in s || c == ' '
    decreases |s|
  {
    var n := LineLength(s);
    if n == |s| then FixLine(s) else FixLine(s[..n]) + "\n" + FixHeadings(s[n + 1..])
  }

  /** The run of hashes of a line that starts with exactly `k` of them. */
  lemma HashRunOf(k: nat, c: char, rest: string)
    requires c != '#'
    ensures LeadingRun(Repeat('#', k) + [c] + rest, '#') == k
  {
    var x := Repeat('#', k) + [c] + rest;
    assert x[k] == c;
    assert forall i :: 0 <= i < k ==> x[i] == '#';
  }

  /** `##Title` becomes `## Title`: one to six hashes directly followed by a
      character that is neither '#' nor whitespace get a space after them. */
  lemma FixLineInsertsSpace(k: nat, c: char, rest: string)
    requires 1 <= k <= 6 && c != '#' && !IsSpace(c)
    ensures FixLine(Repeat('#', k) + [c] + rest) == Repeat('#', k) + " " + [c] + rest
  {
    var x := Repeat('#', k) + [c] + rest;
    HashRunOf(k, c, rest);
    assert x[k] == c;
    assert x[..k] == Repeat('#', k);
    assert x[k..] == [c] + rest;
  }

  /** A heading line whose hashes are already followed by whitespace is left
      as it is. */
  lemma FixLineKeepsSpaced(k: nat, c: char, rest: string)
    requires IsSpace(c)
    ensures FixLine(Repeat('#', k) + [c] + rest) == Repeat('#', k) + [c] + rest
  {
    HashRunOf(k, c, rest);
    assert (Repeat('#', k) + [c] + rest)[k] == c;
  }

  /** A line that does not start with '#', and a line of hashes alone, are
      left as they are. */
  lemma FixLineKeepsUnmarked(line: string)
    requires (line != [] ==> line[0] != '#') || forall i :: 0 <= i < |line| ==> line[i] == '#'
    ensures FixLine(line) == line
  {
  }

  /** A line starting with seven or more hashes is left as it is. */
  lemma FixLineKeepsLongRuns(k: nat, rest: string)
    requires k >= 7
    ensures FixLine(Repeat('#', k) + rest) == Repeat('#', k) + rest
  {
    var x := Repeat('#', k) + rest;
    assert forall i :: 0 <= i < k ==> x[i] == '#';
  }

  /** `##Title` becomes `## Title`, and `## Title` stays as it is. */
  lemma FixLineTitleExample()
    ensures FixLine("##Title") == "## Title"
    ensures FixLine("## Title") == "## Title"
  {
    FixLineInsertsSpace(2, 'T', "itle");
    assert Repeat('#', 2) + ['T'] + "itle" == "##Title";
    assert Repeat('#', 2) + " " + ['T'] + "itle" == "## Title";
    FixLineKeepsSpaced(2, ' ', "Title");
    assert Repeat('#', 2) + [' '] + "Title" == "## Title";
  }

  /** Fixing a line twice is fixing it once. */
  lemma FixLineIdempotent(line: string)
    ensures FixLine(FixLine(line)) == FixLine(line)
  {
    var k := LeadingRun(line, '#');
    if 1 <= k <= 6 && k < |line| && !IsSpace(line[k]) {
      var r := line[..k] + " " + line[k..];
      assert LeadingRun(r, '#') == k by {
        assert r[k] == ' ';
        assert forall i :: 0 <= i < k ==> r[i] == line[i];
      }
      assert r[k] == ' ';
    }
  }

  /** Fixing a line only inserts spaces. */
  lemma FixLineInsertsOnlySpaces(line: string)
    ensures Without(FixLine(line), ' ') == Without(line, ' ')
  {
    var k := LeadingRun(line, '#');
    if 1 <= k <= 6 && k < |line| && !IsSpace(line[k]) {
      WithoutConcat(line[..k] + " ", line[k..], ' ');
      WithoutConcat(line[..k], " ", ' ');
      WithoutConcat(line[..k], line[k..], ' ');
      assert line == line[..k] + line[k..];
      assert Without(" ", ' ') == [];
    }
  }

  /** The pieces `FixHeadings` cuts a text into. */
  lemma LineSplit(s: string)
    requires LineLength(s) < |s|
    ensures s == s[..LineLength(s)] + "\n" + s[LineLength(s) + 1..]
  {
    var n := LineLength(s);
    var x := s[..n] + "\n" + s[n + 1..];
    assert |x| == |s|;
    assert forall i :: 0 <= i < |s| ==> x[i] == s[i];
  }

  /** `LineLength` of a line followed by a newline and more text. */
  lemma LineLengthOf(l: string, rest: string)
    requires '\n' !in l
    ensures LineLength(l + "\n" + rest) == |l|
  {
    var x := l + "\n" + rest;
    assert x[|l|] == '\n';
    assert forall i :: 0 <= i < |l| ==> x[i] == l[i];
  }

  /** `LineLength` of a text without newlines. */
  lemma LineLengthOfLine(l: string)
    requires '\n' !in l
    ensures LineLength(l) == |l|
  {
    assert forall i :: 0 <= i < |l| ==> l[i] != '\n';
  }

  /** Each line is rewritten on its own: a line, a newline and more text
      become the rewritten line, the newline and the rewritten rest. */
  lemma FixHeadingsLine(l: string, rest: string)
    requires '\n' !in l
    ensures FixHeadings(l + "\n" + rest) == FixLine(l) + "\n" + FixHeadings(rest)
  {
    var x := l + "\n" + rest;
    LineLengthOf(l, rest);
    assert x[..|l|] == l;
    assert x[|l| + 1..] == rest;
  }

  /** Rewriting the lines twice is rewriting them once. */
  lemma {:induction false} FixHeadingsIdempotent(s: string)
    ensures FixHeadings(FixHeadings(s)) == FixHeadings(s)
    decreases |s|
  {
    var n := LineLength(s);
    if n == |s| {
      assert '\n' !in s;
      LineLengthOfLine(FixLine(s));
      FixLineIdempotent(s);
    } else {
      var l := FixLine(s[..n]);
      var rest := s[n + 1..];
      assert '\n' !in s[..n];
      assert '\n' !in l;
      FixHeadingsLine(l, FixHeadings(rest));
      FixLineIdempotent(s[..n]);
      FixHeadingsIdempotent(rest);
    }
  }

  /** Heading fixes only insert spaces: with every space removed, the text
      before and after is the same. */
  lemma {:induction false} FixHeadingsInsertsOnlySpaces(s: string)
    ensures Without(FixHeadings(s), ' ') == Without(s, ' ')
    decreases |s|
  {
    var n := LineLength(s);
    FixLineInsertsOnlySpaces(s[..n]);
    if n == |s| {
      assert s[..n] == s;
    } else {
      var rest := s[n + 1..];
      FixHeadingsInsertsOnlySpaces(rest);
      LineSplit(s);
      WithoutConcat(FixLine(s[..n]) + "\n", FixHeadings(rest), ' ');
      WithoutConcat(FixLine(s[..n]), "\n", ' ');
      WithoutConcat(s[..n] + "\n", rest, ' ');
      WithoutConcat(s[..n], "\n", ' ');
    }
  }

  /** The rewritten text starts with a newline exactly when the original does. */
  lemma FixHeadingsStart(s: string)
    ensures (FixHeadings(s) != [] && FixHeadings(s)[0] == '\n') <==> (s != [] && s[0] == '\n')
  {
    var n := LineLength(s);
    if n == |s| {
      assert '\n' !in s;
      assert '\n' !in FixLine(s);
    } else {
      var l := FixLine(s[..n]);
      assert '\n' !in s[..n];
      assert '\n' !in l;
      if l != [] { assert FixHeadings(s)[0] == l[0]; }
    }
  }

  /** A line, a newline and a text without newline triples that does not
      start with two newlines make no triple. */
  lemma NoTripleAcrossLineEnd(l: string, r: string)
    requires '\n' !in l && NoTripleNewline(r)
    requires !(|r| >= 2 && r[0] == '\n' && r[1] == '\n')
    ensures NoTripleNewline(l + "\n" + r)
  {
    var x := l + "\n" + r;
    forall i | 0 <= i < |x| - 2 ensures !(x[i] == '\n' && x[i + 1] == '\n' && x[i + 2] == '\n') {
      if i < |l| {
        assert x[i] == l[i];
      } else if i == |l| {
        assert x[i + 1] == r[0] && x[i + 2] == r[1];
      } else {
        var j := i - |l| - 1;
        assert x[i] == r[j] && x[i + 1] == r[j + 1] && x[i + 2] == r[j + 2];
      }
    }
  }

  /** The rewritten text starts with two newlines only when the original does. */
  lemma FixHeadingsTwoNewlines(s: string)
    ensures |FixHeadings(s)| >= 2 && FixHeadings(s)[0] == '\n' && FixHeadings(s)[1] == '\n'
            ==> |s| >= 2 && s[0] == '\n' && s[1] == '\n'
  {
    FixHeadingsStart(s);
    if |FixHeadings(s)| >= 2 && FixHeadings(s)[0] == '\n' && FixHeadings(s)[1] == '\n' {
      assert LineLength(s) == 0;
      assert s[..0] == [];
      var r := FixHeadings(s[1..]);
      assert FixHeadings(s) == FixLine([]) + "\n" + r;
      assert r[0] == FixHeadings(s)[1];
      FixHeadingsStart(s[1..]);
    }
  }

  /** Heading fixes never create three adjacent newlines. */
  lemma {:induction false} FixHeadingsKeepsNoTriple(s: string)
    requires NoTripleNewline(s)
    ensures NoTripleNewline(FixHeadings(s))
    decreases |s|
  {
    var n := LineLength(s);
    if n == |s| {
      assert '\n' !in s;
      assert '\n' !in FixLine(s);
    } else {
      var l := FixLine(s[..n]);
      var rest := s[n + 1..];
      assert '\n' !in s[..n];
      assert '\n' !in l;
      NoTripleSuffix(s, n + 1);
      FixHeadingsKeepsNoTriple(rest);
      var r := FixHeadings(rest);
      FixHeadingsTwoNewlines(rest);
      assert |rest| >= 2 ==> rest[0] == s[n + 1] && rest[1] == s[n + 2];
      assert |s| >= n + 3 ==> !(s[n] == '\n' && s[n + 1] == '\n' && s[n + 2] == '\n');
      NoTripleAcrossLineEnd(l, r);
    }
  }

  // ---------------------------------------------------------------------
  // The whole clean-up
  // ---------------------------------------------------------------------

  /** `simple_optimize_markdown`: delete every bell character, collapse runs
      of three or more newlines to two, then space out heading markers.
      Afterwards no bell and no three adjacent newlines remain. */
  function Optimize(text: string): (r: string)
    ensures BELL !in r
    ensures NoTripleNewline(r)
  {
    var a := Without(text, BELL);
    var b := CollapseNewlines(a);
    WithoutRemoves(text, BELL);
    CollapseLeavesNoTriple(a);
    FixHeadingsKeepsNoTriple(b);
    FixHeadings(b)
  }

  /** Cleaning up already cleaned-up text changes nothing. */
  lemma OptimizeIdempotent(text: string)
    ensures Optimize(Optimize(text)) == Optimize(text)
  {
    var a := Without(text, BELL);
    var b := CollapseNewlines(a);
    var r := Optimize(text);
    assert r == FixHeadings(b);
    WithoutAbsent(r, BELL);
    CollapseKeepsShortRuns(r);
    FixHeadingsIdempotent(b);
  }

  /** Cleaning up removes bells and newlines and adds spaces, and touches no
      other character: every other character survives, and no new one
      appears. */
  lemma OptimizeKeepsText(text: string, c: char)
    requires c != BELL && c != '\n' && c != ' '
    ensures c in Optimize(text) <==> c in text
  {
    var a := Without(text, BELL);
    var b := CollapseNewlines(a);
    WithoutKeeps(text, BELL, c);
    CollapseRemovesOnlyNewlines(a);
    WithoutKeeps(b, '\n', c);
    WithoutKeeps(a, '\n', c);
    FixHeadingsInsertsOnlySpaces(b);
    WithoutKeeps(FixHeadings(b), ' ', c);
    WithoutKeeps(b, ' ', c);
  }
}
