/**
 * The JavaScript string primitives both handlers rely on: the `\s` class,
 * `trim`, and the regular-expression replacements over runs of white space.
 * Strings are sequences of characters; lengths count characters.
 */
module JsText {

  /** A member of JavaScript's `\s` class: white space and line terminators.
      `String.prototype.trim` removes exactly these characters. */
  predicate IsSpace(c: char) {
    || c == '\t' || c == '\n' || c == '\U{000B}' || c == '\U{000C}' || c == '\r'
    || c == ' ' || c == '\U{00A0}' || c == '\U{1680}'
    || ('\U{2000}' <= c <= '\U{200A}')
    || c == '\U{2028}' || c == '\U{2029}' || c == '\U{202F}' || c == '\U{205F}'
    || c == '\U{3000}' || c == '\U{FEFF}'
  }

  predicate AllSpace(s: string) {
    forall i :: 0 <= i < |s| ==> IsSpace(s[i])
  }

  /** No white space at either end. */
  predicate NoEdgeSpace(s: string) {
    s == [] || (!IsSpace(s[0]) && !IsSpace(s[|s| - 1]))
  }

  /** No two adjacent white-space characters. */
  predicate NoDoubleSpace(s: string) {
    forall i :: 0 <= i < |s| - 1 ==> !SpacePair(s, i)
  }

  /** White space at `i` and at `i + 1`. */
  predicate SpacePair(s: string, i: int)
    requires 0 <= i < |s| - 1
  {
    IsSpace(s[i]) && IsSpace(s[i + 1])
  }

  /** A character put in front keeps adjacent white space apart when it is
      not white space, or when the text does not open with white space. */
  lemma NoDoubleSpaceCons(c: char, t: string)
    requires NoDoubleSpace(t)
    requires t != [] && IsSpace(c) ==> !IsSpace(t[0])
    ensures NoDoubleSpace([c] + t)
  {
    var s := [c] + t;
    forall i | 0 <= i < |s| - 1 ensures !SpacePair(s, i) {
      if i > 0 {
        assert s[i] == t[i - 1] && s[i + 1] == t[i];
        assert !SpacePair(t, i - 1);
      }
    }
  }

  /** Every white-space character is a plain space. */
  predicate OnlyPlainSpaces(s: string) {
    forall i :: 0 <= i < |s| && IsSpace(s[i]) ==> s[i] == ' '
  }

  /** The characters of `s` that are not white space, in order. */
  function NonSpace(s: string): string {
    if s == [] then [] else (if IsSpace(s[0]) then [] else [s[0]]) + NonSpace(s[1..])
  }

  lemma {:induction false} NonSpaceAppend(a: string, b: string)
    ensures NonSpace(a + b) == NonSpace(a) + NonSpace(b)
  {
    if a == [] {
      assert a + b == b;
    } else {
      assert (a + b)[1..] == a[1..] + b;
      NonSpaceAppend(a[1..], b);
    }
  }

  lemma {:induction false} NonSpaceOfSpaces(s: string)
    requires AllSpace(s)
    ensures NonSpace(s) == []
  {
    if s != [] {
      NonSpaceOfSpaces(s[1..]);
    }
  }

  /** Text with nothing but white space is all white space. */
  lemma {:induction false} NonSpaceEmpty(s: string)
    requires NonSpace(s) == []
    ensures AllSpace(s)
  {
    if s != [] {
      NonSpaceEmpty(s[1..]);
      forall i | 0 <= i < |s| ensures IsSpace(s[i]) {
        if i > 0 { assert s[i] == s[1..][i - 1]; }
      }
    }
  }

  /** Length of the longest all-white-space prefix. */
  function LeadingSpaces(s: string): (n: nat)
    ensures n <= |s|
    ensures AllSpace(s[..n])
    ensures n < |s| ==> !IsSpace(s[n])
  {
    if s == [] || !IsSpace(s[0]) then 0
    else
      var m := LeadingSpaces(s[1..]);
      assert s[..1 + m] == [s[0]] + s[1..][..m];
      1 + m
  }

  /** Length of the longest all-white-space suffix. */
  function TrailingSpaces(s: string): (n: nat)
    ensures n <= |s|
    ensures AllSpace(s[|s| - n..])
    ensures n < |s| ==> !IsSpace(s[|s| - 1 - n])
  {
    if s == [] || !IsSpace(s[|s| - 1]) then 0
    else
      var t := s[..|s| - 1];
      var m := TrailingSpaces(t);
      assert s[|s| - (1 + m)..] == t[|t| - m..] + [s[|s| - 1]];
      1 + m
  }

  /** `String.prototype.trim`. The result is the slice of `s` that starts
      after the leading white space, ends before the trailing white space,
      and has no white space at either end. */
  function Trim(s: string): (r: string)
    ensures NoEdgeSpace(r)
    ensures LeadingSpaces(s) + |r| <= |s|
    ensures r == s[LeadingSpaces(s)..LeadingSpaces(s) + |r|]
    ensures AllSpace(s[LeadingSpaces(s) + |r|..])
  {
    var k := LeadingSpaces(s);
    var t := s[k..];
    var n := TrailingSpaces(t);
    assert t[|t| - n..] == s[k + (|t| - n)..];
    t[..|t| - n]
  }

  /** Trimming removes white space only. */
  lemma TrimKeepsNonSpace(s: string)
    ensures NonSpace(Trim(s)) == NonSpace(s)
  {
    var k := LeadingSpaces(s);
    var r := Trim(s);
    assert s == s[..k] + r + s[k + |r|..];
    NonSpaceAppend(s[..k] + r, s[k + |r|..]);
    NonSpaceAppend(s[..k], r);
    NonSpaceOfSpaces(s[..k]);
    NonSpaceOfSpaces(s[k + |r|..]);
  }

  /** A string with no white space at its ends is its own trim. */
  lemma TrimFixesClean(s: string)
    requires NoEdgeSpace(s)
    ensures Trim(s) == s
  {
    assert LeadingSpaces(s) == 0;
    if s != [] {
      assert TrailingSpaces(s) == 0;
    }
  }

  /** Trimming cannot create adjacent white space. */
  lemma TrimKeepsNoDoubleSpace(s: string)
    requires NoDoubleSpace(s)
    ensures NoDoubleSpace(Trim(s))
  {
    var k := LeadingSpaces(s);
    var r := Trim(s);
    forall i | 0 <= i < |r| - 1
      ensures !SpacePair(r, i)
    {
      assert r[i] == s[k + i] && r[i + 1] == s[k + i + 1];
      assert !SpacePair(s, k + i);
    }
  }

  /** `s.replace(/\s+/g, ' ')`: every maximal run of white space becomes one
      plain space. */
  function CollapseRuns(s: string): (r: string)
    ensures |r| <= |s|
    ensures r == [] <==> s == []
    ensures r != [] ==> (IsSpace(r[0]) <==> IsSpace(s[0]))
    ensures r != [] ==> (IsSpace(r[|r| - 1]) <==> IsSpace(s[|s| - 1]))
    ensures NoDoubleSpace(r)
    ensures OnlyPlainSpaces(r)
    decreases |s|
  {
    if s == [] then []
    else if IsSpace(s[0]) then
      var n := LeadingSpaces(s);
      var rest := CollapseRuns(s[n..]);
      assert n == |s| ==> IsSpace(s[|s| - 1]) by {
        if n == |s| { assert s[..n][|s| - 1] == s[|s| - 1]; }
      }
      NoDoubleSpaceCons(' ', rest);
      " " + rest
    else
      var rest := CollapseRuns(s[1..]);
      NoDoubleSpaceCons(s[0], rest);
      [s[0]] + rest
  }

  /** Collapsing runs changes white space only. */
  lemma {:induction false} CollapseRunsKeepsNonSpace(s: string)
    ensures NonSpace(CollapseRuns(s)) == NonSpace(s)
    decreases |s|
  {
    if s == [] {
    } else if IsSpace(s[0]) {
      var n := LeadingSpaces(s);
      assert s == s[..n] + s[n..];
      NonSpaceAppend(s[..n], s[n..]);
      NonSpaceOfSpaces(s[..n]);
      NonSpaceAppend(" ", CollapseRuns(s[n..]));
      CollapseRunsKeepsNonSpace(s[n..]);
    } else {
      assert s == [s[0]] + s[1..];
      NonSpaceAppend([s[0]], s[1..]);
      NonSpaceAppend([s[0]], CollapseRuns(s[1..]));
      CollapseRunsKeepsNonSpace(s[1..]);
    }
  }

  /** Concatenation is associative; stated once so that the proofs below
      need not rediscover it element by element. */
  lemma AppendAssoc<T>(x: seq<T>, y: seq<T>, z: seq<T>)
    ensures x + (y + z) == x + y + z
  {
  }

  /** A sequence is its prefix and suffix at any cut, with nothing before
      or after. */
  lemma SplitAt<T>(x: seq<T>, n: nat)
    requires n <= |x|
    ensures x == x[..n] + x[n..] + []
    ensures x == [] + x[..n] + x[n..]
  {
  }

  /** Two strings meet outside a white-space run: one of them is empty, or
      the first ends or the second starts with a character that is not
      white space. */
  predicate SeparateRuns(a: string, b: string) {
    a == [] || b == [] || !IsSpace(a[|a| - 1]) || !IsSpace(b[0])
  }

  /** The white space opening `a + b` is that of `a`, continued into `b`
      only when `a` is all white space. */
  lemma {:induction false} LeadingSpacesAppend(a: string, b: string)
    ensures LeadingSpaces(a + b) == if LeadingSpaces(a) < |a| then LeadingSpaces(a) else |a| + LeadingSpaces(b)
  {
    if a == [] {
      assert a + b == b;
    } else if IsSpace(a[0]) {
      assert (a + b)[1..] == a[1..] + b;
      LeadingSpacesAppend(a[1..], b);
    }
  }

  /** A run of white space is all white space, so it is its own opening run. */
  lemma LeadingSpacesOfRun(w: string)
    requires AllSpace(w)
    ensures LeadingSpaces(w) == |w|
  {
  }

  /** `/\s+/g` works run by run: text that meets outside a run collapses
      piecewise. */
  lemma {:induction false} CollapseRunsAppend(a: string, b: string)
    requires SeparateRuns(a, b)
    ensures CollapseRuns(a + b) == CollapseRuns(a) + CollapseRuns(b)
    decreases |a|
  {
    if a == [] {
      assert a + b == b;
    } else if b == [] {
      assert a + b == a;
    } else if !IsSpace(a[0]) {
      assert (a + b)[1..] == a[1..] + b;
      CollapseRunsAppend(a[1..], b);
      AppendAssoc([a[0]], CollapseRuns(a[1..]), CollapseRuns(b));
    } else {
      var n := RunInAppend(a, b);
      if n < |a| {
        CollapseRunsAppend(a[n..], b);
        AppendAssoc(" ", CollapseRuns(a[n..]), CollapseRuns(b));
      } else {
        assert CollapseRuns(a) == " ";
      }
    }
  }

  /** The run opening `a + b`, when `a` opens with white space and the two
      meet outside a run, lies within `a`; what follows it is the rest of
      `a` followed by `b`. */
  lemma RunInAppend(a: string, b: string) returns (n: nat)
    requires a != [] && b != [] && IsSpace(a[0]) && SeparateRuns(a, b)
    ensures n == LeadingSpaces(a) == LeadingSpaces(a + b) && 0 < n <= |a|
    ensures (a + b)[n..] == a[n..] + b
    ensures n < |a| ==> |a[n..]| < |a| && SeparateRuns(a[n..], b)
    ensures n == |a| ==> a[n..] == [] && !IsSpace(b[0]) && LeadingSpaces(b) == 0
  {
    n := LeadingSpaces(a);
    LeadingSpacesAppend(a, b);
    assert n == |a| ==> IsSpace(a[|a| - 1]) by {
      if n == |a| { assert a[..n][|a| - 1] == a[|a| - 1]; }
    }
    assert (a + b)[n..] == a[n..] + b;
  }

  /** A whole run of white space collapses to one plain space. */
  lemma CollapseRunsOfRun(w: string)
    requires w != [] && AllSpace(w)
    ensures CollapseRuns(w) == " "
  {
    LeadingSpacesOfRun(w);
    assert w[|w|..] == [];
  }

  /** Words stay apart: a run of white space between two words becomes
      exactly one plain space, and the text on either side collapses on
      its own. */
  lemma CollapseRunsSeparates(a: string, w: string, b: string)
    requires a == [] || !IsSpace(a[|a| - 1])
    requires w != [] && AllSpace(w)
    requires b == [] || !IsSpace(b[0])
    ensures CollapseRuns(a + w + b) == CollapseRuns(a) + " " + CollapseRuns(b)
  {
    AppendAssoc(a, w, b);
    CollapseRunsAppend(a, w + b);
    CollapseRunsAppend(w, b);
    CollapseRunsOfRun(w);
    AppendAssoc(CollapseRuns(a), " ", CollapseRuns(b));
  }

  /** Dropping the first character keeps adjacent white space apart. */
  lemma NoDoubleSpaceTail(s: string)
    requires s != [] && NoDoubleSpace(s)
    ensures NoDoubleSpace(s[1..])
  {
    var t := s[1..];
    forall i | 0 <= i < |t| - 1 ensures !SpacePair(t, i) {
      assert t[i] == s[i + 1] && t[i + 1] == s[i + 2];
      assert !SpacePair(s, i + 1);
    }
  }

  lemma OnlyPlainSpacesTail(s: string)
    requires s != [] && OnlyPlainSpaces(s)
    ensures OnlyPlainSpaces(s[1..])
  {
    var t := s[1..];
    forall i | 0 <= i < |t| && IsSpace(t[i]) ensures t[i] == ' ' {
      assert t[i] == s[i + 1];
    }
  }

  /** A white-space character followed by a non-white-space one (or nothing)
      is a run of length one. */
  lemma SingleSpace(s: string)
    requires s != [] && IsSpace(s[0]) && (|s| > 1 ==> !IsSpace(s[1]))
    ensures LeadingSpaces(s) == 1
  {
    assert LeadingSpaces(s[1..]) == 0;
  }

  /** A string already made of single plain spaces between other characters
      is left unchanged, so collapsing twice is the same as once. */
  lemma {:induction false} CollapseRunsFixes(s: string)
    requires NoDoubleSpace(s) && OnlyPlainSpaces(s)
    ensures CollapseRuns(s) == s
    decreases |s|
  {
    if s != [] {
      var t := s[1..];
      assert CollapseRuns(t) == t by {
        NoDoubleSpaceTail(s);
        OnlyPlainSpacesTail(s);
        CollapseRunsFixes(t);
      }
      if IsSpace(s[0]) {
        assert LeadingSpaces(s) == 1 by {
          assert |s| > 1 ==> !SpacePair(s, 0);
          SingleSpace(s);
        }
        assert s[0] == ' ';
        assert s == " " + t;
      } else {
        assert s == [s[0]] + t;
      }
    }
  }

  /** `s.replace(/\s\s+/g, ' ')`: every run of two or more white-space
      characters becomes one plain space; a lone one is kept as it is. */
  function SqueezeRuns(s: string): (r: string)
    ensures |r| <= |s|
    ensures r == [] <==> s == []
    ensures r != [] ==> (IsSpace(r[0]) <==> IsSpace(s[0]))
    ensures r != [] ==> (IsSpace(r[|r| - 1]) <==> IsSpace(s[|s| - 1]))
    ensures NoDoubleSpace(r)
    decreases |s|
  {
    if s == [] then []
    else if !IsSpace(s[0]) then
      var rest := SqueezeRuns(s[1..]);
      NoDoubleSpaceCons(s[0], rest);
      [s[0]] + rest
    else
      var n := LeadingSpaces(s);
      var rest := SqueezeRuns(s[n..]);
      assert n == |s| ==> IsSpace(s[|s| - 1]) by {
        if n == |s| { assert s[..n][|s| - 1] == s[|s| - 1]; }
      }
      var c := if n == 1 then s[0] else ' ';
      NoDoubleSpaceCons(c, rest);
      [c] + rest
  }

  /** Squeezing runs changes white space only. */
  lemma {:induction false} SqueezeRunsKeepsNonSpace(s: string)
    ensures NonSpace(SqueezeRuns(s)) == NonSpace(s)
    decreases |s|
  {
    if s == [] {
    } else if !IsSpace(s[0]) {
      assert s == [s[0]] + s[1..];
      NonSpaceAppend([s[0]], s[1..]);
      NonSpaceAppend([s[0]], SqueezeRuns(s[1..]));
      SqueezeRunsKeepsNonSpace(s[1..]);
    } else {
      var n := LeadingSpaces(s);
      var w: string := if n == 1 then [s[0]] else " ";
      assert s == s[..n] + s[n..];
      NonSpaceAppend(s[..n], s[n..]);
      NonSpaceOfSpaces(s[..n]);
      NonSpaceAppend(w, SqueezeRuns(s[n..]));
      SqueezeRunsKeepsNonSpace(s[n..]);
    }
  }

  /** A string without adjacent white space is left unchanged. */
  lemma {:induction false} SqueezeRunsFixes(s: string)
    requires NoDoubleSpace(s)
    ensures SqueezeRuns(s) == s
    decreases |s|
  {
    if s != [] {
      var t := s[1..];
      NoDoubleSpaceTail(s);
      SqueezeRunsFixes(t);
      assert s == [s[0]] + t;
      if IsSpace(s[0]) {
        assert |s| > 1 ==> !SpacePair(s, 0);
        SingleSpace(s);
        assert SqueezeRuns(s) == [s[0]] + SqueezeRuns(t);
      } else {
        assert SqueezeRuns(s) == [s[0]] + SqueezeRuns(t);
      }
    }
  }

  /** `/\s\s+/g` works run by run too. */
  lemma {:induction false} SqueezeRunsAppend(a: string, b: string)
    requires SeparateRuns(a, b)
    ensures SqueezeRuns(a + b) == SqueezeRuns(a) + SqueezeRuns(b)
    decreases |a|
  {
    if a == [] {
      assert a + b == b;
    } else if b == [] {
      assert a + b == a;
    } else if !IsSpace(a[0]) {
      assert (a + b)[1..] == a[1..] + b;
      SqueezeRunsAppend(a[1..], b);
      AppendAssoc([a[0]], SqueezeRuns(a[1..]), SqueezeRuns(b));
    } else {
      var n := RunInAppend(a, b);
      if n < |a| {
        SqueezeRunsAppend(a[n..], b);
        var c := if n == 1 then a[0] else ' ';
        AppendAssoc([c], SqueezeRuns(a[n..]), SqueezeRuns(b));
      } else {
        assert SqueezeRuns(a) == [if n == 1 then a[0] else ' '];
      }
    }
  }

  /** A whole run of two or more white-space characters squeezes to one
      plain space; a lone one stays. */
  lemma SqueezeRunsOfRun(w: string)
    requires w != [] && AllSpace(w)
    ensures SqueezeRuns(w) == if |w| == 1 then w else " "
  {
    LeadingSpacesOfRun(w);
    assert w[|w|..] == [];
  }

  /** Words stay apart: a run between two words becomes exactly one
      white-space character, a plain space when the run is two or more
      long, and the text on either side squeezes on its own. */
  lemma SqueezeRunsSeparates(a: string, w: string, b: string)
    requires a == [] || !IsSpace(a[|a| - 1])
    requires w != [] && AllSpace(w)
    requires b == [] || !IsSpace(b[0])
    ensures SqueezeRuns(a + w + b) == SqueezeRuns(a) + (if |w| == 1 then w else " ") + SqueezeRuns(b)
  {
    AppendAssoc(a, w, b);
    SqueezeRunsAppend(a, w + b);
    SqueezeRunsAppend(w, b);
    SqueezeRunsOfRun(w);
    AppendAssoc(SqueezeRuns(a), if |w| == 1 then w else " ", SqueezeRuns(b));
  }

  /** The trailing white-space run is characterised by its length. */
  lemma {:induction false} TrailingSpacesOf(u: string, n: nat)
    requires n <= |u| && AllSpace(u[|u| - n..]) && (n < |u| ==> !IsSpace(u[|u| - 1 - n]))
    ensures TrailingSpaces(u) == n
    decreases n
  {
    if n > 0 {
      var t := u[..|u| - 1];
      assert IsSpace(u[|u| - n..][n - 1]);
      assert t[|t| - (n - 1)..] == u[|u| - n..][..n - 1];
      TrailingSpacesOf(t, n - 1);
    }
  }

  /** The trim of white space around a core with clean ends is that core. */
  lemma TrimOf(p: string, m: string, q: string)
    requires AllSpace(p) && AllSpace(q)
    requires m != [] && NoEdgeSpace(m)
    ensures Trim(p + m + q) == m
  {
    var s := p + m + q;
    assert s == p + (m + q);
    LeadingSpacesOfRun(p);
    LeadingSpacesAppend(p, m + q);
    LeadingSpacesAppend(m, q);
    assert LeadingSpaces(m) == 0;
    assert s[|p|..] == m + q;
    assert (m + q)[|m + q| - |q|..] == q;
    assert (m + q)[|m + q| - 1 - |q|] == m[|m| - 1];
    TrailingSpacesOf(m + q, |q|);
    assert (m + q)[..|m|] == m;
  }

  /** The leading run stops before a final character that is not white space. */
  lemma {:induction false} LeadingSpacesBeforeWord(a: string)
    requires a != [] && !IsSpace(a[|a| - 1])
    ensures LeadingSpaces(a) < |a|
  {
    if IsSpace(a[0]) {
      assert a[1..][|a| - 2] == a[|a| - 1];
      LeadingSpacesBeforeWord(a[1..]);
    }
  }

  /** The trailing run stops after a first character that is not white space. */
  lemma {:induction false} TrailingSpacesAfterWord(b: string)
    requires b != [] && !IsSpace(b[0])
    ensures TrailingSpaces(b) < |b|
  {
    if IsSpace(b[|b| - 1]) {
      var t := b[..|b| - 1];
      assert t[0] == b[0];
      TrailingSpacesAfterWord(t);
    }
  }

  /** A string ending in a character that is not white space is its leading
      white space followed by its trim. */
  lemma TrimOfWordEnd(a: string)
    requires a != [] && !IsSpace(a[|a| - 1])
    ensures LeadingSpaces(a) < |a|
    ensures Trim(a) == a[LeadingSpaces(a)..]
  {
    LeadingSpacesBeforeWord(a);
    var n := LeadingSpaces(a);
    var m := a[n..];
    assert NoEdgeSpace(m) by {
      assert m[0] == a[n] && m[|m| - 1] == a[|a| - 1];
    }
    SplitAt(a, n);
    TrimOf(a[..n], m, []);
  }

  /** ... and one starting with such a character is its trim followed by
      its trailing white space. */
  lemma TrimOfWordStart(b: string)
    requires b != [] && !IsSpace(b[0])
    ensures TrailingSpaces(b) < |b|
    ensures Trim(b) == b[..|b| - TrailingSpaces(b)]
  {
    TrailingSpacesAfterWord(b);
    var k := |b| - TrailingSpaces(b);
    var m := b[..k];
    assert !IsSpace(b[k - 1]);
    assert NoEdgeSpace(m) by {
      assert m[0] == b[0] && m[k - 1] == b[k - 1];
    }
    SplitAt(b, k);
    TrimOf([], m, b[k..]);
  }

  /** Trimming leaves white space between two words alone. */
  lemma TrimSeparates(a: string, w: string, b: string)
    requires a != [] && !IsSpace(a[|a| - 1])
    requires AllSpace(w)
    requires b != [] && !IsSpace(b[0])
    ensures Trim(a + w + b) == Trim(a) + w + Trim(b)
  {
    TrimOfWordEnd(a);
    TrimOfWordStart(b);
    var la := LeadingSpaces(a);
    var tb := TrailingSpaces(b);
    var m := a[la..] + w + b[..|b| - tb];
    assert m[0] == a[la];
    assert m[|m| - 1] == b[|b| - tb - 1];
    assert a + w + b == a[..la] + m + b[|b| - tb..];
    TrimOf(a[..la], m, b[|b| - tb..]);
  }

  /** The part of `s` after its last `c`; all of `s` when `c` does not occur. */
  function AfterLast(s: string, c: char): (r: string)
    ensures c !in r
    ensures |r| <= |s| && r == s[|s| - |r|..]
    ensures |r| < |s| ==> s[|s| - |r| - 1] == c
  {
    if c !in s then s else AfterLast(s[1..], c)
  }

  /** The longest prefix of `s` free of the characters in `stops`: the text a
      `split` on one of them, or a `[^...]+` capture, yields. */
  function PrefixBefore(s: string, stops: set<char>): (r: string)
    ensures r <= s
    ensures forall i :: 0 <= i < |r| ==> r[i] !in stops
    ensures |r| < |s| ==> s[|r|] in stops
  {
    if s == [] || s[0] in stops then [] else [s[0]] + PrefixBefore(s[1..], stops)
  }

  /** ASCII upper case to lower case; other characters unchanged. */
  function LowerChar(c: char): char {
    if 'A' <= c <= 'Z' then (c as int + 32) as char else c
  }

  /** `toLowerCase` restricted to ASCII letters. */
  function Lower(s: string): (r: string)
    ensures |r| == |s|
    ensures forall i :: 0 <= i < |s| ==> r[i] == LowerChar(s[i])
  {
    seq(|s|, i requires 0 <= i < |s| => LowerChar(s[i]))
  }
}
