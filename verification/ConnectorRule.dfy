/**
 The connector rule of the chunk planner: which connectors its scan finds.  A match takes the white
 space on both sides of the connector, so connectors that follow each other compete for it.
 */
module ConnectorRule {
  import opened Text
  import opened Words
  import opened ChunkPlanner

  /** Connectors as the source has them: nonempty and without white space. */
  predicate AreWords(connectors: seq<Text>) {
    forall k :: 0 <= k < |connectors| ==>
      connectors[k] != [] && forall i :: 0 <= i < |connectors[k]| ==> !IsSpace(connectors[k][i])
  }

  /** A connector match is a run of word characters and then one white-space character. */
  lemma {:induction false} ConnectorIsWord(buf: Text, p: nat, connectors: seq<Text>)
    requires AreWords(connectors) && ConnectorEnd(buf, p, connectors).Some?
    ensures var e := ConnectorEnd(buf, p, connectors).value;
            && p + 1 < e <= |buf| && IsSpace(buf[e - 1])
            && forall i :: p <= i < e - 1 ==> !IsSpace(buf[i])
    decreases |connectors|
  {
    var c := connectors[0];
    if p + |c| < |buf| && buf[p..p + |c|] == c && IsSpace(buf[p + |c|]) {
      forall i | p <= i < p + |c|
        ensures !IsSpace(buf[i])
      {
        assert buf[i] == buf[p..p + |c|][i - p];
      }
    } else {
      ConnectorIsWord(buf, p, connectors[1..]);
    }
  }

  lemma MatchStart(buf: Text, p: nat, connectors: seq<Text>)
    requires AreWords(connectors) && p < |buf| && MatchEnd(buf, p, connectors).Some?
    ensures var start := SkipSpaces(buf, p);
            && start == (if IsSpace(buf[p]) then p + 1 else 0)
            && ConnectorEnd(buf, start, connectors) == MatchEnd(buf, p, connectors)
  {
    var q := if IsSpace(buf[p]) then p + 1 else 0;
    if p == 0 && ConnectorEnd(buf, 0, connectors).Some? {
      ConnectorIsWord(buf, 0, connectors);
    } else {
      ConnectorIsWord(buf, q, connectors);
    }
  }

  /** The connector rule cuts right before a connector. */
  lemma {:induction false} ConnectorCutStarts(buf: Text, minWords: nat, connectors: seq<Text>, p: nat)
    requires AreWords(connectors) && ScanConnector(buf, minWords, connectors, p).Some?
    ensures ConnectorEnd(buf, ScanConnector(buf, minWords, connectors, p).value, connectors).Some?
    decreases |buf| - p
  {
    var m := MatchEnd(buf, p, connectors);
    if m.None? {
      ConnectorCutStarts(buf, minWords, connectors, p + 1);
    } else {
      MatchStart(buf, p, connectors);
      var start := SkipSpaces(buf, p);
      if !(start > 0 && WordCount(buf[..start]) >= minWords) {
        ConnectorCutStarts(buf, minWords, connectors, m.value);
      }
    }
  }

  // ---------------------------------------------------------------- connectors in a row

  /** Where the run of word characters that ends at `e` starts. */
  function WordStart(buf: Text, e: nat): (s: nat)
    requires e <= |buf|
    ensures s <= e && (s > 0 ==> IsSpace(buf[s - 1]))
    ensures forall i :: s <= i < e ==> !IsSpace(buf[i])
  {
    if e == 0 || IsSpace(buf[e - 1]) then e else WordStart(buf, e - 1)
  }

  /** How many connectors stand in a row right before `q`, with one white-space character after each. */
  function Chain(buf: Text, connectors: seq<Text>, q: nat): nat
    requires q <= |buf|
  {
    if q == 0 then 0 else
    var s := WordStart(buf, q - 1);
    if s < q - 1 && ConnectorEnd(buf, s, connectors) == Some(q) then 1 + Chain(buf, connectors, s) else 0
  }

  /** Past the minimum, a connector at `q` between white space. */
  predicate Eligible(buf: Text, minWords: nat, connectors: seq<Text>, q: nat) {
    && 0 < q <= |buf| && IsSpace(buf[q - 1]) && ConnectorEnd(buf, q, connectors).Some?
    && WordCount(buf[..q]) >= minWords
  }

  /** The white space before `q` is not taken by the connector before it, if there is one. */
  predicate Free(buf: Text, connectors: seq<Text>, q: nat)
    requires q <= |buf|
  {
    q == 0 ||
    (var s := WordStart(buf, q - 1);
     s < q - 1 && ConnectorEnd(buf, s, connectors) == Some(q) ==> !Free(buf, connectors, s))
  }

  /** Of connectors in a row every second one is free, from the first on. */
  lemma {:induction false} FreeIff(buf: Text, connectors: seq<Text>, q: nat)
    requires q <= |buf|
    ensures Free(buf, connectors, q) <==> Chain(buf, connectors, q) % 2 == 0
  {
    if q > 0 {
      var s := WordStart(buf, q - 1);
      if s < q - 1 && ConnectorEnd(buf, s, connectors) == Some(q) {
        FreeIff(buf, connectors, s);
      }
    }
  }

  /** `r` is the first eligible and free connector behind `from`. */
  ghost predicate IsFirstFree(buf: Text, minWords: nat, connectors: seq<Text>, from: nat, r: Option<nat>) {
    && (r.Some? ==> from < r.value && Eligible(buf, minWords, connectors, r.value) && Free(buf, connectors, r.value))
    && (forall q :: from < q && (r.Some? ==> q < r.value) && Eligible(buf, minWords, connectors, q) ==>
          !Free(buf, connectors, q))
  }

  /** The scan comes to `p` with the connector that `p` lies in, if any, not taken, and rightly so. */
  predicate OnCourse(buf: Text, connectors: seq<Text>, p: nat) {
    p == 0 || p >= |buf| || (var s := WordStart(buf, p);
                             ConnectorEnd(buf, s, connectors).Some? ==> !Free(buf, connectors, s))
  }

  /** A match that starts at `p`: its connector starts at `start`, and its white space ends at `e`. */
  predicate Matches(buf: Text, connectors: seq<Text>, p: nat, start: nat, e: nat) {
    && p < |buf| && start == (if IsSpace(buf[p]) then p + 1 else 0) && start + 1 < e <= |buf|
    && (start == 0 ==> p == 0) && ConnectorEnd(buf, start, connectors) == Some(e)
    && (forall i :: start <= i < e - 1 ==> !IsSpace(buf[i])) && IsSpace(buf[e - 1])
  }

  lemma MatchIs(buf: Text, connectors: seq<Text>, p: nat)
    requires AreWords(connectors) && p < |buf| && MatchEnd(buf, p, connectors).Some?
    ensures Matches(buf, connectors, p, SkipSpaces(buf, p), MatchEnd(buf, p, connectors).value)
  {
    MatchStart(buf, p, connectors);
    ConnectorIsWord(buf, SkipSpaces(buf, p), connectors);
  }

  /** The connector right after a match is free exactly if that of the match is not. */
  lemma FreedomAlternates(buf: Text, connectors: seq<Text>, p: nat, start: nat, e: nat)
    requires Matches(buf, connectors, p, start, e)
    ensures Free(buf, connectors, e) == !Free(buf, connectors, start)
  {
    WordStartIs(buf, start, e - 1);
  }

  lemma StartIsFree(buf: Text, connectors: seq<Text>, p: nat, start: nat, e: nat)
    requires AreWords(connectors) && OnCourse(buf, connectors, p) && Matches(buf, connectors, p, start, e)
    ensures Free(buf, connectors, start)
  {
    if start > 0 {
      PreviousEnd(buf, p, connectors);
    }
  }

  /** Where a scan that is on course finds a match, the connector is free, and its successor is not. */
  lemma MatchIsFree(buf: Text, connectors: seq<Text>, p: nat, start: nat, e: nat)
    requires AreWords(connectors) && OnCourse(buf, connectors, p) && Matches(buf, connectors, p, start, e)
    ensures Free(buf, connectors, start) && !Free(buf, connectors, e)
  {
    StartIsFree(buf, connectors, p, start, e);
    FreedomAlternates(buf, connectors, p, start, e);
  }

  lemma PreviousEnd(buf: Text, p: nat, connectors: seq<Text>)
    requires AreWords(connectors) && p < |buf| && IsSpace(buf[p]) && OnCourse(buf, connectors, p)
    ensures Free(buf, connectors, p + 1)
  {
    var s := WordStart(buf, p);
    if s < p && ConnectorEnd(buf, s, connectors).Some? && p == 0 {
      assert false;
    }
  }

  lemma {:induction false} WordStartIs(buf: Text, s: nat, e: nat)
    requires s <= e <= |buf| && (s > 0 ==> IsSpace(buf[s - 1]))
    requires forall i :: s <= i < e ==> !IsSpace(buf[i])
    ensures WordStart(buf, e) == s
    decreases e
  {
    if s < e {
      WordStartIs(buf, s, e - 1);
    }
  }

  lemma StaysOnCourse(buf: Text, connectors: seq<Text>, p: nat)
    requires AreWords(connectors) && p < |buf| && OnCourse(buf, connectors, p)
    requires MatchEnd(buf, p, connectors).None?
    ensures OnCourse(buf, connectors, p + 1)
    ensures IsSpace(buf[p]) ==> ConnectorEnd(buf, p + 1, connectors).None?
  {
  }

  lemma FirstFromNext(buf: Text, minWords: nat, connectors: seq<Text>, p: nat, r: Option<nat>)
    requires p < |buf| && (IsSpace(buf[p]) ==> ConnectorEnd(buf, p + 1, connectors).None?)
    requires IsFirstFree(buf, minWords, connectors, p + 1, r)
    ensures IsFirstFree(buf, minWords, connectors, p, r)
  {
  }

  /** Inside a match only its own connector starts after white space. */
  lemma OnlyStart(buf: Text, connectors: seq<Text>, p: nat, start: nat, e: nat, q: nat)
    requires Matches(buf, connectors, p, start, e) && p < q < e && IsSpace(buf[q - 1])
    ensures q == start
  {
  }

  lemma NoneInside(buf: Text, minWords: nat, connectors: seq<Text>, p: nat, start: nat, e: nat, q: nat)
    requires Matches(buf, connectors, p, start, e) && p < q < e
    requires start == 0 || WordCount(buf[..start]) < minWords
    ensures !Eligible(buf, minWords, connectors, q)
  {
    if IsSpace(buf[q - 1]) {
      OnlyStart(buf, connectors, p, start, e, q);
    }
  }

  lemma PassedOver(buf: Text, minWords: nat, connectors: seq<Text>, p: nat, start: nat, e: nat, r: Option<nat>, q: nat)
    requires Matches(buf, connectors, p, start, e) && !Free(buf, connectors, e)
    requires start == 0 || WordCount(buf[..start]) < minWords
    requires IsFirstFree(buf, minWords, connectors, e, r)
    requires p < q && (r.Some? ==> q < r.value) && Eligible(buf, minWords, connectors, q)
    ensures !Free(buf, connectors, q)
  {
    if q < e {
      NoneInside(buf, minWords, connectors, p, start, e, q);
    }
  }

  lemma FirstFromMatch(buf: Text, minWords: nat, connectors: seq<Text>, p: nat, start: nat, e: nat, r: Option<nat>)
    requires Matches(buf, connectors, p, start, e) && !Free(buf, connectors, e)
    requires start == 0 || WordCount(buf[..start]) < minWords
    requires IsFirstFree(buf, minWords, connectors, e, r)
    ensures IsFirstFree(buf, minWords, connectors, p, r)
  {
    forall q | p < q && (r.Some? ==> q < r.value) && Eligible(buf, minWords, connectors, q)
      ensures !Free(buf, connectors, q)
    {
      PassedOver(buf, minWords, connectors, p, start, e, r, q);
    }
  }

  lemma FirstIsTaken(buf: Text, minWords: nat, connectors: seq<Text>, p: nat, start: nat, e: nat)
    requires Matches(buf, connectors, p, start, e) && Free(buf, connectors, start)
    requires start > 0 && WordCount(buf[..start]) >= minWords
    ensures IsFirstFree(buf, minWords, connectors, p, Some(start))
  {
  }

  /** A turn of the scan without a match. */
  lemma TurnWithout(buf: Text, minWords: nat, connectors: seq<Text>, p: nat)
    requires AreWords(connectors) && p < |buf| && OnCourse(buf, connectors, p) && MatchEnd(buf, p, connectors).None?
    ensures OnCourse(buf, connectors, p + 1) && (IsSpace(buf[p]) ==> ConnectorEnd(buf, p + 1, connectors).None?)
    ensures ScanConnector(buf, minWords, connectors, p) == ScanConnector(buf, minWords, connectors, p + 1)
  {
    StaysOnCourse(buf, connectors, p);
    ScanUnfolds(buf, minWords, connectors, p);
  }

  /** A turn of the scan with a match: it is taken, or the scan goes on behind it. */
  lemma TurnWith(buf: Text, minWords: nat, connectors: seq<Text>, p: nat) returns (start: nat, e: nat, taken: bool)
    requires AreWords(connectors) && p < |buf| && OnCourse(buf, connectors, p) && MatchEnd(buf, p, connectors).Some?
    ensures Matches(buf, connectors, p, start, e) && Free(buf, connectors, start) && !Free(buf, connectors, e)
    ensures taken == (start > 0 && WordCount(buf[..start]) >= minWords)
    ensures ScanConnector(buf, minWords, connectors, p)
            == if taken then Some(start) else ScanConnector(buf, minWords, connectors, e)
  {
    start, e := SkipSpaces(buf, p), MatchEnd(buf, p, connectors).value;
    taken := start > 0 && WordCount(buf[..start]) >= minWords;
    MatchIs(buf, connectors, p);
    MatchIsFree(buf, connectors, p, start, e);
    ScanUnfolds(buf, minWords, connectors, p);
  }

  lemma BehindMatch(buf: Text, connectors: seq<Text>, e: nat)
    requires 0 < e <= |buf| && IsSpace(buf[e - 1]) && !Free(buf, connectors, e)
    ensures OnCourse(buf, connectors, e)
  {
    WordStartIs(buf, e, e);
  }

  /** The scan finds the first eligible and free connector. */
  lemma {:induction false} ScanFindsFirst(buf: Text, minWords: nat, connectors: seq<Text>, p: nat) returns (r: Option<nat>)
    requires AreWords(connectors) && OnCourse(buf, connectors, p)
    ensures r == ScanConnector(buf, minWords, connectors, p) && IsFirstFree(buf, minWords, connectors, p, r)
    decreases |buf| - p
  {
    if p >= |buf| {
      r := None;
    } else if MatchEnd(buf, p, connectors).None? {
      TurnWithout(buf, minWords, connectors, p);
      r := ScanFindsFirst(buf, minWords, connectors, p + 1);
      FirstFromNext(buf, minWords, connectors, p, r);
    } else {
      var start, e, taken := TurnWith(buf, minWords, connectors, p);
      if taken {
        r := Some(start);
        FirstIsTaken(buf, minWords, connectors, p, start, e);
      } else {
        BehindMatch(buf, connectors, e);
        r := ScanFindsFirst(buf, minWords, connectors, e);
        FirstFromMatch(buf, minWords, connectors, p, start, e, r);
      }
    }
  }

  /**
   The connector rule cuts before the first connector that is past the minimum and free, that is,
   has an even number of connectors in a row right before it; without one it does not cut.
   */
  lemma ConnectorFound(buf: Text, minWords: nat, connectors: seq<Text>)
    requires AreWords(connectors)
    ensures IsFirstFree(buf, minWords, connectors, 0, ScanConnector(buf, minWords, connectors, 0))
    ensures forall q :: 0 <= q <= |buf| ==> (Free(buf, connectors, q) <==> Chain(buf, connectors, q) % 2 == 0)
  {
    var r := ScanFindsFirst(buf, minWords, connectors, 0);
    forall q | 0 <= q <= |buf| ensures Free(buf, connectors, q) <==> Chain(buf, connectors, q) % 2 == 0 {
      FreeIff(buf, connectors, q);
    }
  }

  lemma OverlookedIff(buf: Text, minWords: nat, connectors: seq<Text>, q: nat, cut: Option<nat>)
    requires IsFirstFree(buf, minWords, connectors, 0, cut) && Eligible(buf, minWords, connectors, q)
    ensures (cut.None? || cut.value > q)
            <==> forall x :: 0 < x <= q && Eligible(buf, minWords, connectors, x) ==> !Free(buf, connectors, x)
  {
  }

  /**
   A connector past the minimum is passed over exactly if an odd number of connectors stand in a
   row right before it, and the same holds of every earlier one past the minimum.
   */
  lemma ConnectorOverlookedIff(buf: Text, minWords: nat, connectors: seq<Text>, q: nat)
    requires AreWords(connectors) && Eligible(buf, minWords, connectors, q)
    ensures var cut := ScanConnector(buf, minWords, connectors, 0);
            (cut.None? || cut.value > q)
            <==> forall x :: 0 < x <= q && Eligible(buf, minWords, connectors, x) ==>
                   Chain(buf, connectors, x) % 2 == 1
  {
    var cut := ScanFindsFirst(buf, minWords, connectors, 0);
    OverlookedIff(buf, minWords, connectors, q, cut);
    forall x | 0 < x <= q ensures Free(buf, connectors, x) <==> Chain(buf, connectors, x) % 2 == 0 {
      FreeIff(buf, connectors, x);
    }
  }
}
