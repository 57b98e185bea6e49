/** White space, words and trimming, as Python's `str` defines them. */
module Words {
  import opened Text

  /** The white-space code points, as inclusive ranges. */
  const SPACES: seq<(Code, Code)> := [
    (0x09, 0x0D), (0x1C, 0x20), (0x85, 0x85), (0xA0, 0xA0), (0x1680, 0x1680),
    (0x2000, 0x200A), (0x2028, 0x2029), (0x202F, 0x202F), (0x205F, 0x205F), (0x3000, 0x3000)
  ]

  /** `str.isspace`, also the class of `\s`, `split()` and `strip()`. */
  predicate IsSpace(c: Code) { InRanges(c, SPACES) }

  /** Some stretches of code points without white space. */
  lemma NotSpace(c: Code)
    requires 0x21 <= c < 0x80 || 0x100 <= c < 0x1680 || 0x2010 <= c < 0x2028
    ensures !IsSpace(c)
  {
    var ranges := SPACES;
    while ranges != []
      invariant InRanges(c, SPACES) == InRanges(c, ranges)
      invariant |ranges| <= |SPACES| && ranges == SPACES[|SPACES| - |ranges|..]
    {
      ranges := ranges[1..];
    }
  }

  predicate AllSpace(s: Text) {
    forall i :: 0 <= i < |s| ==> IsSpace(s[i])
  }

  /** Length of the run of non-space characters that starts `s`. */
  function RunLength(s: Text): (n: nat)
    ensures n <= |s|
    ensures forall i :: 0 <= i < n ==> !IsSpace(s[i])
    ensures n < |s| ==> IsSpace(s[n])
  {
    if s == [] || IsSpace(s[0]) then 0 else 1 + RunLength(s[1..])
  }

  /** `s.split()`. */
  function Split(s: Text): seq<Text>
    decreases |s|
  {
    if s == [] then []
    else if IsSpace(s[0]) then Split(s[1..])
    else [s[..RunLength(s)]] + Split(s[RunLength(s)..])
  }

  function WordCount(s: Text): nat { |Split(s)| }

  function LeadingSpaces(s: Text): (n: nat)
    ensures n <= |s| && AllSpace(s[..n])
    ensures n < |s| ==> !IsSpace(s[n])
  {
    if s == [] || !IsSpace(s[0]) then 0 else
    var n := LeadingSpaces(s[1..]);
    assert s[..n + 1] == [s[0]] + s[1..][..n];
    n + 1
  }

  function LStrip(s: Text): Text { s[LeadingSpaces(s)..] }

  /** Where the trailing white space of `s` begins. */
  function TrimmedLength(s: Text): (n: nat)
    ensures n <= |s| && AllSpace(s[n..])
    ensures n > 0 ==> !IsSpace(s[n - 1])
  {
    if s == [] || !IsSpace(s[|s| - 1]) then |s| else
    var n := TrimmedLength(s[..|s| - 1]);
    assert s[n..] == s[..|s| - 1][n..] + [s[|s| - 1]];
    n
  }

  function RStrip(s: Text): Text { s[..TrimmedLength(s)] }

  function Strip(s: Text): Text { RStrip(LStrip(s)) }

  function NonSpace(s: Text): Text {
    if s == [] then []
    else (if IsSpace(s[0]) then [] else [s[0]]) + NonSpace(s[1..])
  }

  /** Between `a` and `b` no word is cut. */
  predicate WordEdge(a: Text, b: Text) {
    a == [] || b == [] || IsSpace(a[|a| - 1]) || IsSpace(b[0])
  }

  lemma RunLengthIs(s: Text, n: nat)
    requires n <= |s|
    requires forall i :: 0 <= i < n ==> !IsSpace(s[i])
    requires n < |s| ==> IsSpace(s[n])
    ensures RunLength(s) == n
  {
  }

  lemma SplitRun(a: Text, b: Text)
    requires a != [] && forall i :: 0 <= i < |a| ==> !IsSpace(a[i])
    requires b != [] ==> IsSpace(b[0])
    ensures Split(a + b) == [a] + Split(b)
  {
    RunLengthIs(a + b, |a|);
    assert (a + b)[..|a|] == a && (a + b)[|a|..] == b;
  }

  lemma SplitSkips(s: Text)
    requires s != [] && IsSpace(s[0])
    ensures Split(s) == Split(s[1..])
  {
  }

  lemma SplitWord(s: Text)
    requires s != [] && !IsSpace(s[0])
    ensures RunLength(s) > 0 && Split(s) == [s[..RunLength(s)]] + Split(s[RunLength(s)..])
  {
  }

  lemma SplitWordConcat(a: Text, b: Text)
    requires a != [] && !IsSpace(a[0]) && RunLength(a) < |a|
    ensures RunLength(a) > 0
    ensures Split(a + b) == [a[..RunLength(a)]] + Split(a[RunLength(a)..] + b)
  {
    var n := RunLength(a);
    RunLengthIs(a + b, n);
    SplitWord(a + b);
    assert (a + b)[..n] == a[..n] && (a + b)[n..] == a[n..] + b;
  }

  lemma SplitLater(a: Text, b: Text)
    requires a != [] && !IsSpace(a[0]) && RunLength(a) < |a|
    requires var rest := a[RunLength(a)..]; Split(rest + b) == Split(rest) + Split(b)
    ensures Split(a + b) == Split(a) + Split(b)
  {
    var n := RunLength(a);
    SplitWord(a);
    SplitWordConcat(a, b);
    Assoc([a[..n]], Split(a[n..]), Split(b));
  }

  /** Splitting distributes over a cut at a word edge. */
  lemma {:induction false} SplitConcat(a: Text, b: Text)
    requires WordEdge(a, b)
    ensures Split(a + b) == Split(a) + Split(b)
    decreases |a|
  {
    if a == [] {
      assert a + b == b;
    } else if IsSpace(a[0]) {
      SplitSkips(a);
      SplitSkips(a + b);
      assert (a + b)[1..] == a[1..] + b;
      SplitConcat(a[1..], b);
    } else if RunLength(a) == |a| {
      SplitRun(a, b);
      SplitRun(a, []);
      assert a + [] == a;
    } else {
      SplitWord(a);
      SplitConcat(a[RunLength(a)..], b);
      SplitLater(a, b);
    }
  }

  lemma CutRun(a: Text, b: Text)
    requires a != [] && forall i :: 0 <= i < |a| ==> !IsSpace(a[i])
    requires b != [] && !IsSpace(b[0])
    ensures WordCount(a + b) == WordCount(b) && WordCount(a) == 1
  {
    var m := RunLength(b);
    var w, r := b[..m], b[m..];
    SplitRun(w, r);
    SplitRun(a + w, r);
    SplitRun(a, []);
    assert a + [] == a && b == w + r;
    Assoc(a, w, r);
  }

  /** A cut inside a word adds exactly one to the number of words. */
  lemma {:induction false} CutWordCountsTwice(a: Text, b: Text)
    requires !WordEdge(a, b)
    ensures WordCount(a + b) + 1 == WordCount(a) + WordCount(b)
    decreases |a|
  {
    if IsSpace(a[0]) {
      assert (a + b)[1..] == a[1..] + b;
      CutWordCountsTwice(a[1..], b);
    } else {
      var n := RunLength(a);
      if n == |a| {
        CutRun(a, b);
      } else {
        SplitWord(a);
        SplitWordConcat(a, b);
        CutWordCountsTwice(a[n..], b);
      }
    }
  }

  lemma NonEmptyRunHasWord(s: Text)
    requires s != [] && !IsSpace(s[0])
    ensures WordCount(s) >= 1
  {
  }

  lemma WordCountBounds(a: Text, b: Text)
    ensures WordCount(a) <= WordCount(a + b) <= WordCount(a) + WordCount(b)
  {
    if WordEdge(a, b) {
      SplitConcat(a, b);
    } else {
      CutWordCountsTwice(a, b);
      NonEmptyRunHasWord(b);
    }
  }

  lemma {:induction false} SpaceHasNoWord(s: Text)
    requires AllSpace(s)
    ensures Split(s) == [] && NonSpace(s) == []
  {
    if s != [] {
      SpaceHasNoWord(s[1..]);
    }
  }

  lemma {:induction false} NonSpaceConcat(a: Text, b: Text)
    ensures NonSpace(a + b) == NonSpace(a) + NonSpace(b)
  {
    if a == [] {
      assert a + b == b;
    } else {
      NonSpaceConcat(a[1..], b);
      assert (a + b)[1..] == a[1..] + b;
      Assoc(if IsSpace(a[0]) then [] else [a[0]], NonSpace(a[1..]), NonSpace(b));
    }
  }

  lemma LStripKeeps(s: Text)
    ensures Split(LStrip(s)) == Split(s) && NonSpace(LStrip(s)) == NonSpace(s)
  {
    var n := LeadingSpaces(s);
    assert s == s[..n] + s[n..];
    SpaceHasNoWord(s[..n]);
    SplitConcat(s[..n], s[n..]);
    NonSpaceConcat(s[..n], s[n..]);
  }

  lemma RStripKeeps(s: Text)
    ensures Split(RStrip(s)) == Split(s) && NonSpace(RStrip(s)) == NonSpace(s)
  {
    var n := TrimmedLength(s);
    assert s == s[..n] + s[n..];
    SpaceHasNoWord(s[n..]);
    assert s[n..] != [] ==> s[n..][0] == s[n];
    SplitConcat(s[..n], s[n..]);
    NonSpaceConcat(s[..n], s[n..]);
  }

  lemma StripKeeps(s: Text)
    ensures Split(Strip(s)) == Split(s) && NonSpace(Strip(s)) == NonSpace(s)
    ensures Strip(s) == [] <==> WordCount(s) == 0
  {
    LStripKeeps(s);
    RStripKeeps(LStrip(s));
    var t := LStrip(s);
    if t != [] {
      NonEmptyRunHasWord(t);
    }
  }
}
