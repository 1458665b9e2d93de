/**
 * The text pipeline of the page summariser: the character filter, the three
 * white-space replacements and the truncation to 5000 characters.
 */
module PageText {
  import opened JsText

  /** The characters the filter keeps: printable ASCII, CJK symbols and
      punctuation, hiragana, katakana, half- and full-width forms, CJK
      unified ideographs, and line feed, carriage return and tab. */
  predicate Keep(c: char) {
    || (' ' <= c <= '~')
    || ('\U{3000}' <= c <= '\U{303F}')
    || ('\U{3040}' <= c <= '\U{309F}')
    || ('\U{30A0}' <= c <= '\U{30FF}')
    || ('\U{FF00}' <= c <= '\U{FFEF}')
    || ('\U{4E00}' <= c <= '\U{9FFF}')
    || c == '\n' || c == '\r' || c == '\t'
  }

  /** The removal of every character outside the kept classes. */
  function FilterChars(s: string): (r: string)
    ensures |r| <= |s|
    ensures forall i :: 0 <= i < |r| ==> Keep(r[i])
  {
    if s == [] then [] else (if Keep(s[0]) then [s[0]] else []) + FilterChars(s[1..])
  }

  /** `r` can be obtained from `s` by deleting characters. */
  predicate IsSubsequence(r: string, s: string)
    decreases |s|
  {
    if r == [] then true
    else if s == [] then false
    else if r[0] == s[0] then IsSubsequence(r[1..], s[1..])
    else IsSubsequence(r, s[1..])
  }

  /** The filter only deletes: its output is a subsequence of its input. */
  lemma {:induction false} FilterIsSubsequence(s: string)
    ensures IsSubsequence(FilterChars(s), s)
  {
    if s != [] {
      FilterIsSubsequence(s[1..]);
      var r := FilterChars(s);
      if Keep(s[0]) {
        assert r[0] == s[0] && r[1..] == FilterChars(s[1..]);
      } else {
        assert r == FilterChars(s[1..]);
        SubsequenceSkip(r, s);
      }
    }
  }

  lemma {:induction false} SubsequenceSkip(r: string, s: string)
    requires s != [] && IsSubsequence(r, s[1..])
    ensures IsSubsequence(r, s)
    decreases |s|, 0
  {
    if r != [] && r[0] == s[0] {
      SubsequenceTail(r, s[1..]);
    }
  }

  lemma {:induction false} SubsequenceTail(r: string, s: string)
    requires r != [] && IsSubsequence(r, s)
    ensures IsSubsequence(r[1..], s)
    decreases |s|, 1
  {
    if s != [] {
      if r[0] == s[0] {
        if r[1..] != [] {
          SubsequenceSkip(r[1..], s);
        }
      } else {
        SubsequenceTail(r, s[1..]);
        if r[1..] != [] {
          SubsequenceSkip(r[1..], s);
        }
      }
    }
  }

  /** Each kept character keeps all its occurrences, and no other character
      survives. */
  lemma {:induction false} FilterCounts(s: string, c: char)
    ensures multiset(FilterChars(s))[c] == if Keep(c) then multiset(s)[c] else 0
  {
    if s != [] {
      FilterCounts(s[1..], c);
      assert s == [s[0]] + s[1..];
      assert multiset(s) == multiset([s[0]]) + multiset(s[1..]);
    }
  }

  /** A character occurs in the output exactly when it occurs in the input
      and is kept. */
  lemma FilterMembership(s: string, c: char)
    ensures c in FilterChars(s) <==> c in s && Keep(c)
  {
    FilterCounts(s, c);
    assert c in FilterChars(s) <==> multiset(FilterChars(s))[c] > 0;
    assert c in s <==> multiset(s)[c] > 0;
  }

  /** Text made only of kept characters passes unchanged. */
  lemma {:induction false} FilterKeepsClean(s: string)
    requires forall i :: 0 <= i < |s| ==> Keep(s[i])
    ensures FilterChars(s) == s
  {
    if s != [] {
      FilterKeepsClean(s[1..]);
    }
  }

  /** Filtering twice is filtering once. */
  lemma FilterIdempotent(s: string)
    ensures FilterChars(FilterChars(s)) == FilterChars(s)
  {
    FilterKeepsClean(FilterChars(s));
  }

  /** The white-space run that starts `t`. */
  function LeadingRun(t: string): (w: string)
    ensures AllSpace(w) && w <= t
  {
    t[..LeadingSpaces(t)]
  }

  /** How much of `t` the white-space run opening it covers up to and
      including its last line feed: 0 when that run holds no line feed. */
  function FeedReach(t: string): (k: nat)
    ensures k <= |t|
  {
    if t == [] || !IsSpace(t[0]) then 0
    else
      var k := FeedReach(t[1..]);
      if k > 0 then k + 1 else if t[0] == '\n' then 1 else 0
  }

  /** `s.replace(/\n\s*\n/g, '\n')`: a line feed followed by a run of white
      space that holds another line feed is replaced, through the last line
      feed of that run, by a single line feed. */
  function MergeBlankLines(s: string): (r: string)
    ensures |r| <= |s|
    decreases |s|
  {
    if s == [] then []
    else if s[0] == '\n' && FeedReach(s[1..]) > 0 then "\n" + MergeBlankLines(s[1 + FeedReach(s[1..])..])
    else [s[0]] + MergeBlankLines(s[1..])
  }

  /** The reach of the run opening `t` is non-zero exactly when that run
      holds a line feed, and then ends just after its last one. */
  lemma {:induction false} FeedReachOfRun(t: string)
    ensures FeedReach(t) > 0 <==> '\n' in LeadingRun(t)
    ensures FeedReach(t) > 0 ==> FeedReach(t) == |LeadingRun(t)| - |AfterLast(LeadingRun(t), '\n')|
    decreases |t|
  {
    if t != [] && IsSpace(t[0]) {
      FeedReachOfRun(t[1..]);
      var w := LeadingRun(t);
      assert w == [t[0]] + LeadingRun(t[1..]) by {
        assert t[..1 + LeadingSpaces(t[1..])] == [t[0]] + t[1..][..LeadingSpaces(t[1..])];
      }
      assert w[1..] == LeadingRun(t[1..]);
    }
  }

  /** The reach, when non-zero, ends on a line feed. */
  lemma {:induction false} FeedReachEndsOnFeed(t: string)
    requires FeedReach(t) > 0
    ensures t[FeedReach(t) - 1] == '\n'
    decreases |t|
  {
    if FeedReach(t[1..]) > 0 {
      FeedReachEndsOnFeed(t[1..]);
    }
  }

  /** The reach in `u + y` is that in `u` when `y` does not open with white
      space or `u` ends with a character that is not. */
  lemma {:induction false} FeedReachAppend(u: string, y: string)
    requires y == [] || !IsSpace(y[0]) || (u != [] && !IsSpace(u[|u| - 1]))
    ensures FeedReach(u + y) == FeedReach(u)
    decreases |u|
  {
    if u == [] {
      assert u + y == y;
    } else {
      assert (u + y)[0] == u[0] && (u + y)[1..] == u[1..] + y;
      if IsSpace(u[0]) {
        FeedReachAppend(u[1..], y);
      }
    }
  }

  /** No line feed is followed by white space holding another line feed. */
  predicate NoBlankLine(r: string) {
    forall i :: 0 <= i < |r| && r[i] == '\n' ==> '\n' !in LeadingRun(r[i + 1..])
  }

  /** Merging text whose opening run holds no line feed keeps that run. */
  lemma {:induction false} MergeKeepsLeadingRun(u: string)
    requires '\n' !in LeadingRun(u)
    ensures LeadingRun(MergeBlankLines(u)) == LeadingRun(u)
    decreases |u|
  {
    if u != [] && IsSpace(u[0]) {
      assert u[0] == LeadingRun(u)[0];
      assert LeadingRun(u) == [u[0]] + LeadingRun(u[1..]);
      MergeKeepsLeadingRun(u[1..]);
      var m := MergeBlankLines(u[1..]);
      assert MergeBlankLines(u) == [u[0]] + m;
      assert LeadingSpaces([u[0]] + m) == 1 + LeadingSpaces(m) by {
        assert ([u[0]] + m)[1..] == m;
      }
    }
  }

  /** After the merge no blank line is left. */
  lemma {:induction false} MergeLeavesNoBlankLine(s: string)
    ensures NoBlankLine(MergeBlankLines(s))
    decreases |s|
  {
    if s != [] {
      FeedReachOfRun(s[1..]);
      if s[0] == '\n' && '\n' in LeadingRun(s[1..]) {
        var w := LeadingRun(s[1..]);
        var rest := AfterLast(w, '\n');
        var u := s[1 + |w| - |rest|..];
        MergeLeavesNoBlankLine(u);
        assert LeadingRun(u) == rest by { RestIsRun(s[1..], w, rest); }
        MergeKeepsLeadingRun(u);
        NoBlankLineCons('\n', MergeBlankLines(u));
      } else {
        MergeLeavesNoBlankLine(s[1..]);
        if s[0] == '\n' {
          MergeKeepsLeadingRun(s[1..]);
        }
        NoBlankLineCons(s[0], MergeBlankLines(s[1..]));
      }
    }
  }

  /** A character in front of text without blank lines opens none, unless
      it is a line feed before a run holding another. */
  lemma NoBlankLineCons(c: char, m: string)
    requires NoBlankLine(m)
    requires c == '\n' ==> '\n' !in LeadingRun(m)
    ensures NoBlankLine([c] + m)
  {
    var r := [c] + m;
    forall i | 0 <= i < |r| && r[i] == '\n' ensures '\n' !in LeadingRun(r[i + 1..]) {
      if i > 0 {
        assert r[i + 1..] == m[i..];
        assert m[i - 1] == '\n';
      } else {
        assert r[1..] == m;
      }
    }
  }

  /** What follows the last line feed of the run opening `t` is the white-space
      run opening the rest of `t` from there. */
  lemma RestIsRun(t: string, w: string, rest: string)
    requires w == LeadingRun(t) && rest == AfterLast(w, '\n') && '\n' in w
    ensures LeadingRun(t[|w| - |rest|..]) == rest
  {
    var k := |w|;
    var j := k - |rest|;
    RunSuffix(t, k, j);
    assert t[j..][..k - j] == t[j..k];
    assert rest == t[j..k] by {
      assert w == t[..k];
      assert w[j..] == t[j..k];
    }
  }

  /** A suffix of the white-space run opening `t` opens the rest of `t`. */
  lemma RunSuffix(t: string, k: nat, j: nat)
    requires k == LeadingSpaces(t) && j <= k
    ensures LeadingSpaces(t[j..]) == k - j
  {
    var u := t[j..];
    var v := u[..k - j];
    assert AllSpace(v) by {
      forall i | 0 <= i < |v| ensures IsSpace(v[i]) {
        assert v[i] == t[..k][j + i];
      }
    }
    if k < |t| {
      assert u[k - j] == t[k];
    }
    LeadingSpacesOf(u, k - j);
  }

  lemma LeadingSpacesOf(u: string, n: nat)
    requires n <= |u| && AllSpace(u[..n]) && (n < |u| ==> !IsSpace(u[n]))
    ensures LeadingSpaces(u) == n
    decreases n
  {
    if n > 0 {
      assert IsSpace(u[..n][0]);
      assert u[1..][..n - 1] == u[..n][1..];
      LeadingSpacesOf(u[1..], n - 1);
    }
  }

  /** The reach covers white space only. */
  lemma {:induction false} FeedReachIsSpace(t: string)
    ensures AllSpace(t[..FeedReach(t)])
    decreases |t|
  {
    if t != [] && IsSpace(t[0]) {
      FeedReachIsSpace(t[1..]);
      var k := FeedReach(t);
      if k > 1 {
        assert t[..k] == [t[0]] + t[1..][..k - 1];
      }
    }
  }

  /** What a blank line's match covers is white space. */
  lemma BlankMatchIsSpace(s: string, j: nat)
    requires s != [] && s[0] == '\n' && j == 1 + FeedReach(s[1..])
    ensures j <= |s| && AllSpace(s[..j])
  {
    FeedReachIsSpace(s[1..]);
    assert s[..j] == [s[0]] + s[1..][..j - 1];
  }

  /** The merge removes white space only. */
  lemma {:induction false} MergeKeepsNonSpace(s: string)
    ensures NonSpace(MergeBlankLines(s)) == NonSpace(s)
    decreases |s|
  {
    if s != [] {
      if s[0] == '\n' && FeedReach(s[1..]) > 0 {
        var j := 1 + FeedReach(s[1..]);
        BlankMatchIsSpace(s, j);
        SplitAt(s, j);
        NonSpaceAppend(s[..j], s[j..]);
        NonSpaceOfSpaces(s[..j]);
        NonSpaceAppend("\n", MergeBlankLines(s[j..]));
        MergeKeepsNonSpace(s[j..]);
      } else {
        assert s == [s[0]] + s[1..];
        NonSpaceAppend([s[0]], s[1..]);
        NonSpaceAppend([s[0]], MergeBlankLines(s[1..]));
        MergeKeepsNonSpace(s[1..]);
      }
    }
  }

  /** Text without adjacent white space has no blank line to merge. */
  lemma {:induction false} MergeFixes(s: string)
    requires NoDoubleSpace(s)
    ensures MergeBlankLines(s) == s
    decreases |s|
  {
    if s != [] {
      if s[0] == '\n' && |s| > 1 {
        assert !SpacePair(s, 0);
      }
      NoDoubleSpaceTail(s);
      MergeFixes(s[1..]);
    }
  }

  /** The merge keeps the first character. */
  lemma MergeStarts(s: string)
    requires s != []
    ensures MergeBlankLines(s) != [] && MergeBlankLines(s)[0] == s[0]
  {
  }

  /** `/\n\s*\n/g` works piece by piece on text that meets outside a
      white-space run: no blank line spans the meeting point. */
  lemma {:induction false} MergeAppend(x: string, y: string)
    requires SeparateRuns(x, y)
    ensures MergeBlankLines(x + y) == MergeBlankLines(x) + MergeBlankLines(y)
    decreases |x|
  {
    if x == [] {
      assert x + y == y;
    } else if y == [] {
      assert x + y == x;
    } else {
      assert (x + y)[1..] == x[1..] + y;
      if x[0] == '\n' {
        FeedReachAppend(x[1..], y);
      }
      if x[0] == '\n' && FeedReach(x[1..]) > 0 {
        var j := 1 + FeedReach(x[1..]);
        assert (x + y)[j..] == x[j..] + y;
        MergeAppend(x[j..], y);
        MergeAppendBlank(x, y, j);
      } else {
        MergeAppend(x[1..], y);
        MergeAppendPlain(x, y);
      }
    }
  }

  /** The step of MergeAppend at a blank line opening `x`. */
  lemma MergeAppendBlank(x: string, y: string, j: nat)
    requires x != [] && x[0] == '\n' && j == 1 + FeedReach(x[1..]) && j > 1
    requires FeedReach((x + y)[1..]) == FeedReach(x[1..]) && (x + y)[j..] == x[j..] + y
    requires MergeBlankLines(x[j..] + y) == MergeBlankLines(x[j..]) + MergeBlankLines(y)
    ensures MergeBlankLines(x + y) == MergeBlankLines(x) + MergeBlankLines(y)
  {
    AppendAssoc("\n", MergeBlankLines(x[j..]), MergeBlankLines(y));
  }

  /** The step of MergeAppend anywhere else. */
  lemma MergeAppendPlain(x: string, y: string)
    requires x != [] && !(x[0] == '\n' && FeedReach(x[1..]) > 0)
    requires (x + y)[1..] == x[1..] + y
    requires x[0] == '\n' ==> FeedReach((x + y)[1..]) == FeedReach(x[1..])
    requires MergeBlankLines(x[1..] + y) == MergeBlankLines(x[1..]) + MergeBlankLines(y)
    ensures MergeBlankLines(x + y) == MergeBlankLines(x) + MergeBlankLines(y)
  {
    AppendAssoc([x[0]], MergeBlankLines(x[1..]), MergeBlankLines(y));
  }

  /** Text ending in a character that is not white space keeps that last
      character through the merge. */
  lemma {:induction false} MergeEnds(a: string)
    requires a != [] && !IsSpace(a[|a| - 1])
    ensures MergeBlankLines(a) != []
    ensures !IsSpace(MergeBlankLines(a)[|MergeBlankLines(a)| - 1])
    decreases |a|
  {
    if a[0] == '\n' && FeedReach(a[1..]) > 0 {
      var j := 1 + FeedReach(a[1..]);
      var m := MergeBlankLines(a[j..]);
      assert m != [] && !IsSpace(m[|m| - 1]) by {
        FeedReachEndsOnFeed(a[1..]);
        assert a[j - 1] == a[1..][j - 2] == '\n';
        assert a[j..][|a| - j - 1] == a[|a| - 1];
        MergeEnds(a[j..]);
      }
      assert MergeBlankLines(a) == "\n" + m;
      LastOfCons('\n', m);
    } else if |a| > 1 {
      var m := MergeBlankLines(a[1..]);
      assert m != [] && !IsSpace(m[|m| - 1]) by {
        assert a[1..][|a| - 2] == a[|a| - 1];
        MergeEnds(a[1..]);
      }
      assert MergeBlankLines(a) == [a[0]] + m;
      LastOfCons(a[0], m);
    } else {
      assert MergeBlankLines(a) == [a[0]] + MergeBlankLines([]);
    }
  }

  /** A character in front of non-empty text leaves its last character. */
  lemma LastOfCons(c: char, m: string)
    requires m != []
    ensures ([c] + m)[|[c] + m| - 1] == m[|m| - 1]
  {
  }

  /** A run of white space merges to a non-empty run of white space. */
  lemma MergeOfRun(w: string)
    requires w != [] && AllSpace(w)
    ensures MergeBlankLines(w) != [] && AllSpace(MergeBlankLines(w))
  {
    MergeKeepsNonSpace(w);
    NonSpaceOfSpaces(w);
    NonSpaceEmpty(MergeBlankLines(w));
  }

  /** Text without a line feed has no blank line to merge. */
  lemma {:induction false} MergeNoNewline(s: string)
    requires '\n' !in s
    ensures MergeBlankLines(s) == s
  {
    if s != [] {
      assert s[0] != '\n';
      MergeNoNewline(s[1..]);
    }
  }

  /** The three replacements: blank lines merged, runs of two or more white
      space characters squeezed to one space, then the ends trimmed. */
  function Normalize(s: string): (r: string)
    ensures NoEdgeSpace(r) && NoDoubleSpace(r)
    ensures NonSpace(r) == NonSpace(s)
  {
    var merged := MergeBlankLines(s);
    var squeezed := SqueezeRuns(merged);
    MergeKeepsNonSpace(s);
    SqueezeRunsKeepsNonSpace(merged);
    TrimKeepsNonSpace(squeezed);
    TrimKeepsNoDoubleSpace(squeezed);
    Trim(squeezed)
  }

  /** What a run of white space between two words comes to once blank lines
      are merged and runs squeezed. */
  function Gap(w: string): string {
    SqueezeRuns(MergeBlankLines(w))
  }

  /** The blank-line merge keeps two words and the run between them apart:
      each is merged on its own, the words keep their edge characters and
      the run stays a non-empty run of white space. */
  lemma MergeSeparates(a: string, w: string, b: string)
    requires a != [] && !IsSpace(a[|a| - 1])
    requires w != [] && AllSpace(w)
    requires b != [] && !IsSpace(b[0])
    ensures MergeBlankLines(a + w + b) == MergeBlankLines(a) + MergeBlankLines(w) + MergeBlankLines(b)
    ensures MergeBlankLines(a) != [] && !IsSpace(MergeBlankLines(a)[|MergeBlankLines(a)| - 1])
    ensures MergeBlankLines(w) != [] && AllSpace(MergeBlankLines(w))
    ensures MergeBlankLines(b) != [] && !IsSpace(MergeBlankLines(b)[0])
  {
    AppendAssoc(a, w, b);
    MergeAppend(a, w + b);
    MergeAppend(w, b);
    AppendAssoc(MergeBlankLines(a), MergeBlankLines(w), MergeBlankLines(b));
    MergeEnds(a);
    MergeOfRun(w);
    MergeStarts(b);
  }

  /** A run of white space between two words comes to one white-space
      character, a plain space when the run is two or more characters
      without a line feed. */
  lemma GapOfRun(w: string)
    requires w != [] && AllSpace(w)
    ensures |Gap(w)| == 1 && IsSpace(Gap(w)[0])
    ensures '\n' !in w ==> Gap(w) == if |w| == 1 then w else " "
  {
    MergeOfRun(w);
    SqueezeRunsOfRun(MergeBlankLines(w));
    if '\n' !in w {
      MergeNoNewline(w);
    }
  }

  /** Words of the page text stay apart: a run of white space between two
      words becomes exactly one white-space character, a plain space when
      the run is two or more characters without a line feed, and the text
      on either side is normalised on its own. */
  lemma NormalizeSeparates(a: string, w: string, b: string)
    requires a != [] && !IsSpace(a[|a| - 1])
    requires w != [] && AllSpace(w)
    requires b != [] && !IsSpace(b[0])
    ensures |Gap(w)| == 1 && IsSpace(Gap(w)[0])
    ensures '\n' !in w ==> Gap(w) == if |w| == 1 then w else " "
    ensures Normalize(a + w + b) == Normalize(a) + Gap(w) + Normalize(b)
  {
    var ma, mw, mb := MergeBlankLines(a), MergeBlankLines(w), MergeBlankLines(b);
    MergeSeparates(a, w, b);
    GapOfRun(w);
    SqueezeRunsSeparates(ma, mw, mb);
    SqueezeRunsOfRun(mw);
    var g, sa, sb := Gap(w), SqueezeRuns(ma), SqueezeRuns(mb);
    assert AllSpace(g);
    TrimSeparates(sa, g, sb);
  }

  /** Normalising normalised text changes nothing. */
  lemma NormalizeIdempotent(s: string)
    ensures Normalize(Normalize(s)) == Normalize(s)
  {
    var r := Normalize(s);
    MergeFixes(r);
    SqueezeRunsFixes(r);
    TrimFixesClean(r);
  }

  const MaxTextLength := 5000
  const TruncationMark := "... (truncated)"

  /** Text longer than 5000 characters is cut to its first 5000 and marked. */
  function Truncate(s: string): (r: string)
    ensures |r| <= MaxTextLength + |TruncationMark|
    ensures |s| <= MaxTextLength ==> r == s
    ensures |s| > MaxTextLength ==> |r| == MaxTextLength + |TruncationMark|
    ensures |s| > MaxTextLength ==> r[..MaxTextLength] == s[..MaxTextLength] && r[MaxTextLength..] == TruncationMark
  {
    if |s| > MaxTextLength then s[..MaxTextLength] + TruncationMark else s
  }

  /** Cutting text with no white space at its ends leaves none there: the
      cut keeps the first character and the mark ends with a parenthesis. */
  lemma TruncateKeepsEdges(s: string)
    requires NoEdgeSpace(s)
    ensures NoEdgeSpace(Truncate(s))
  {
    var r := Truncate(s);
    if |s| > MaxTextLength {
      assert r[0] == r[..MaxTextLength][0] == s[0];
      assert r[|r| - 1] == r[MaxTextLength..][|TruncationMark| - 1] == ')';
    }
  }

  /** Truncating truncated text changes nothing: the mark is never cut. */
  lemma TruncateIdempotent(s: string)
    ensures Truncate(Truncate(s)) == Truncate(s)
  {
    var r := Truncate(s);
    if |s| > MaxTextLength {
      assert r[..MaxTextLength] + TruncationMark == r;
    }
  }
}
