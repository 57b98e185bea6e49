/**
 The hot and the non-hot branch of the selection on whole rosters and on all scores: the hot branch
 always picks the best rep, and exactly when the non-hot one does so too, whatever the order of the
 roster.
 */
module AssignmentBranches {
  import opened Text
  import opened Assignment

  ghost predicate DistinctReps(reps: seq<Rep>) {
    forall i, j :: 0 <= i < j < |reps| ==> reps[i].id != reps[j].id
  }

  /** The candidate that a rep would be. */
  function AsCandidate(rep: Rep, open: string -> nat): Candidate {
    Candidate(rep, open(rep.id))
  }

  /** `b` is ordered before all the others, and none of them before it. */
  ghost predicate Beats(hot: bool, b: Candidate, cs: seq<Candidate>) {
    forall c :: c in cs && c != b ==> Less(hot, b, c) && !Less(hot, c, b)
  }

  // ---------------------------------------------------------------- where insertion puts things

  lemma {:induction false} InsertInFront(hot: bool, cs: seq<Candidate>, b: Candidate)
    requires forall c :: c in cs ==> Less(hot, b, c)
    ensures Insert(hot, cs, b)[0] == b
  {
    if cs != [] {
      assert cs[|cs| - 1] in cs;
      InsertInFront(hot, cs[..|cs| - 1], b);
    }
  }

  lemma {:induction false} InsertBehind(hot: bool, cs: seq<Candidate>, c: Candidate)
    requires cs != [] && !Less(hot, c, cs[0])
    ensures Insert(hot, cs, c)[0] == cs[0]
  {
    var n := |cs| - 1;
    if n > 0 && Less(hot, c, cs[n]) {
      InsertBehind(hot, cs[..n], c);
    }
  }

  lemma {:induction false} InsertFirst(hot: bool, cs: seq<Candidate>, c: Candidate)
    requires cs != []
    ensures Insert(hot, cs, c)[0] in {c, cs[0]}
  {
    var n := |cs| - 1;
    if Less(hot, c, cs[n]) {
      if n > 0 {
        InsertFirst(hot, cs[..n], c);
      } else {
        assert Insert(hot, [], c) == [c];
      }
    }
  }

  lemma SortMembers(hot: bool, cs: seq<Candidate>, c: Candidate)
    ensures c in Sort(hot, cs) <==> c in cs
  {
    assert c in Sort(hot, cs) <==> c in multiset(Sort(hot, cs));
    assert c in cs <==> c in multiset(cs);
  }

  lemma InPrefix(cs: seq<Candidate>, c: Candidate)
    requires cs != [] && DistinctIds(cs)
    ensures DistinctIds(cs[..|cs| - 1])
    ensures c in cs[..|cs| - 1] <==> c in cs && c != cs[|cs| - 1]
  {
    var n := |cs| - 1;
    if c in cs[..n] {
      var i :| 0 <= i < n && cs[..n][i] == c;
      assert cs[i].rep.id != cs[n].rep.id;
    }
    if c in cs {
      var i :| 0 <= i < |cs| && cs[i] == c;
      assert i < n ==> cs[..n][i] == c;
    }
  }

  lemma LastWins(hot: bool, cs: seq<Candidate>, b: Candidate)
    requires cs != [] && cs[|cs| - 1] == b && DistinctIds(cs) && Beats(hot, b, cs)
    ensures Sort(hot, cs)[0] == b
  {
    var front := cs[..|cs| - 1];
    forall c | c in Sort(hot, front) ensures Less(hot, b, c) {
      SortMembers(hot, front, c);
      InPrefix(cs, c);
    }
    InsertInFront(hot, Sort(hot, front), b);
  }

  /** A candidate that beats all the others is sorted first. */
  lemma {:induction false} WinnerIsFirst(hot: bool, cs: seq<Candidate>, b: Candidate)
    requires b in cs && DistinctIds(cs) && Beats(hot, b, cs)
    ensures Sort(hot, cs) != [] && Sort(hot, cs)[0] == b
    decreases |cs|
  {
    var front, last := cs[..|cs| - 1], cs[|cs| - 1];
    if last == b {
      LastWins(hot, cs, b);
    } else {
      InPrefix(cs, b);
      WinnerIsFirst(hot, front, b);
      assert last in cs;
      InsertBehind(hot, Sort(hot, front), last);
    }
  }

  /** If the list starts with `c` and then `b`, and `b` is not ordered before `c`, then `b` is not sorted first. */
  lemma {:induction false} LoserIsNotFirst(hot: bool, cs: seq<Candidate>, b: Candidate, c: Candidate)
    requires |cs| >= 2 && cs[0] == c && cs[1] == b && c != b && !Less(hot, b, c)
    requires forall i :: 2 <= i < |cs| ==> cs[i] != b
    ensures Sort(hot, cs) != [] && Sort(hot, cs)[0] != b
    decreases |cs|
  {
    var n := |cs| - 1;
    if n == 1 {
      assert cs[..1] == [c] && cs[..1][..0] == [];
      assert Sort(hot, cs[..1]) == Insert(hot, [], c) == [c];
      assert Insert(hot, [c], b) == [c] + [b];
    } else {
      LoserIsNotFirst(hot, cs[..n], b, c);
      InsertFirst(hot, Sort(hot, cs[..n]), cs[n]);
    }
  }

  // ---------------------------------------------------------------- the best candidate

  /** `b` is better than all the others. */
  ghost predicate Tops(b: Candidate, cs: seq<Candidate>) {
    b in cs && forall c :: c in cs && c != b ==> Better(b, c)
  }

  lemma {:induction false} SomeoneTops(cs: seq<Candidate>) returns (b: Candidate)
    requires cs != [] && DistinctIds(cs)
    ensures Tops(b, cs)
    decreases |cs|
  {
    var n := |cs| - 1;
    if n == 0 {
      b := cs[0];
    } else {
      var before := SomeoneTops(cs[..n]);
      b := if Better(before, cs[n]) then before else cs[n];
      forall c | c in cs && c != b ensures Better(b, c) {
        var i :| 0 <= i < |cs| && cs[i] == c;
        var j :| 0 <= j < n && cs[..n][j] == before;
        BetterIsStrictTotal(cs[n], before, c);
        assert i < n ==> c in cs[..n];
      }
    }
  }

  lemma HotBeats(cs: seq<Candidate>, b: Candidate)
    requires Tops(b, cs)
    ensures Beats(true, b, cs)
  {
    forall c | c in cs && c != b ensures Less(true, b, c) && !Less(true, c, b) {
      LessIsBetterIff(b, c);
      LessIsBetterIff(c, b);
      BetterIsStrictTotal(b, c, b);
    }
  }

  /** Two least-loaded candidates that the non-hot branch does not tell apart as their scores do. */
  predicate Unclear(b: Candidate, c: Candidate) {
    b.openTasks == c.openTasks && c.rep.score < b.rep.score && c.rep.score <= 0.0 && b.rep.score <= 1.0
  }

  lemma NonHotIsClearIff(b: Candidate, c: Candidate)
    requires Better(b, c)
    ensures Less(false, b, c) <==> !Unclear(b, c)
    ensures !Unclear(b, c) ==> !Less(false, c, b)
  {
    LessIsBetterIff(b, c);
    LessIsBetterIff(c, b);
    BetterIsStrictTotal(b, c, b);
    LoadOrder((b.openTasks + 1) as real, Weight(b), Weight(c));
  }

  // ---------------------------------------------------------------- rosters

  lemma {:induction false} CandidatesDistinct(reps: seq<Rep>, open: string -> nat)
    requires DistinctReps(reps)
    ensures DistinctIds(Candidates(reps, open))
    decreases |reps|
  {
    if reps != [] {
      var n := |reps| - 1;
      CandidatesDistinct(reps[..n], open);
      var before := Candidates(reps[..n], open);
      forall i | 0 <= i < |before| ensures before[i].rep.id != reps[n].id {
        assert before[i] in before;
      }
    }
  }

  lemma BestTops(reps: seq<Rep>, open: string -> nat, b: Rep)
    requires IsBest(reps, open, b)
    ensures Tops(AsCandidate(b, open), Candidates(reps, open))
  {
  }

  lemma TopsIsBest(reps: seq<Rep>, open: string -> nat, b: Candidate)
    requires Tops(b, Candidates(reps, open))
    ensures IsBest(reps, open, b.rep) && b == AsCandidate(b.rep, open)
  {
    forall r | r in reps && UnderCap(r, open(r.id)) && r != b.rep
      ensures Better(b, AsCandidate(r, open))
    {
      assert AsCandidate(r, open) in Candidates(reps, open);
    }
  }

  /** On all scores, the hot branch picks the best rep under cap, whatever the order of the roster. */
  lemma HotPicksBest(reps: seq<Rep>, open: string -> nat)
    requires DistinctReps(reps) && Select(reps, open, true).Some?
    ensures IsBest(reps, open, Select(reps, open, true).value)
  {
    var cs := Candidates(reps, open);
    CandidatesDistinct(reps, open);
    assert Sort(true, []) == [];
    var b := SomeoneTops(cs);
    HotBeats(cs, b);
    WinnerIsFirst(true, cs, b);
    TopsIsBest(reps, open, b);
  }

  /** Every eligible rep but the best is told apart from it by the non-hot branch. */
  ghost predicate AllClear(reps: seq<Rep>, open: string -> nat, best: Rep) {
    forall r :: r in reps && UnderCap(r, open(r.id)) ==> !Unclear(AsCandidate(best, open), AsCandidate(r, open))
  }

  lemma ClearPicksBest(reps: seq<Rep>, open: string -> nat, best: Rep)
    requires DistinctReps(reps) && IsBest(reps, open, best) && AllClear(reps, open, best)
    ensures Select(reps, open, false) == Some(best)
  {
    var cs, b := Candidates(reps, open), AsCandidate(best, open);
    CandidatesDistinct(reps, open);
    BestTops(reps, open, best);
    forall c | c in cs && c != b ensures Less(false, b, c) && !Less(false, c, b) {
      NonHotIsClearIff(b, c);
    }
    WinnerIsFirst(false, cs, b);
  }

  lemma {:induction false} CandidatesTail(a: Rep, b: Rep, rest: seq<Rep>, open: string -> nat)
    requires UnderCap(a, open(a.id)) && UnderCap(b, open(b.id))
    ensures var cs := Candidates([a, b] + rest, open);
            |cs| >= 2 && cs[0] == AsCandidate(a, open) && cs[1] == AsCandidate(b, open)
            && forall i :: 2 <= i < |cs| ==> cs[i].rep in rest
    decreases |rest|
  {
    var reps := [a, b] + rest;
    var n := |reps| - 1;
    if rest == [] {
      assert reps[..n] == [a] && [a][..0] == [];
      assert Candidates([a], open) == [] + [AsCandidate(a, open)];
    } else {
      assert reps[..n] == [a, b] + rest[..|rest| - 1];
      CandidatesTail(a, b, rest[..|rest| - 1], open);
    }
  }

  /** A roster without one of its reps. */
  lemma TakeOut(reps: seq<Rep>, r: Rep) returns (rest: seq<Rep>)
    requires r in reps
    ensures multiset(rest) + multiset{r} == multiset(reps)
  {
    var i :| 0 <= i < |reps| && reps[i] == r;
    rest := reps[..i] + reps[i + 1..];
    Without(reps, i);
  }

  /** The roster with `a` and `b` moved to its front. */
  lemma MoveToFront(reps: seq<Rep>, a: Rep, b: Rep) returns (rest: seq<Rep>)
    requires DistinctReps(reps) && a in reps && b in reps && a != b
    ensures multiset([a, b] + rest) == multiset(reps) && b !in rest
  {
    var without := TakeOut(reps, a);
    assert b in multiset(reps) && b in multiset(without);
    rest := TakeOut(without, b);
    assert [a, b] + rest == [a] + [b] + rest;
    DistinctOnce(reps, b);
    assert b in rest <==> b in multiset(rest);
  }

  lemma Without(s: seq<Rep>, i: nat)
    requires i < |s|
    ensures multiset(s) == multiset(s[..i] + s[i + 1..]) + multiset{s[i]}
  {
    assert s == s[..i] + [s[i]] + s[i + 1..];
  }

  lemma {:induction false} DistinctOnce(reps: seq<Rep>, r: Rep)
    requires DistinctReps(reps) && r in reps
    ensures multiset(reps)[r] == 1
    decreases |reps|
  {
    var n := |reps| - 1;
    assert reps == reps[..n] + [reps[n]];
    if r in reps[..n] {
      DistinctOnce(reps[..n], r);
    } else {
      assert multiset(reps[..n])[r] == 0;
    }
  }

  lemma UnclearMisses(reps: seq<Rep>, open: string -> nat, best: Rep, r: Rep) returns (others: seq<Rep>)
    requires DistinctReps(reps) && IsBest(reps, open, best)
    requires r in reps && UnderCap(r, open(r.id)) && Unclear(AsCandidate(best, open), AsCandidate(r, open))
    ensures multiset(others) == multiset(reps) && Select(others, open, false) != Some(best)
  {
    var rest := MoveToFront(reps, r, best);
    others := [r, best] + rest;
    CandidatesTail(r, best, rest, open);
    NonHotIsClearIff(AsCandidate(best, open), AsCandidate(r, open));
    LoserIsNotFirst(false, Candidates(others, open), AsCandidate(best, open), AsCandidate(r, open));
    FirstIsPicked(others, open, best);
  }

  lemma FirstIsPicked(reps: seq<Rep>, open: string -> nat, best: Rep)
    requires var sorted := Sort(false, Candidates(reps, open)); sorted != [] && sorted[0] != AsCandidate(best, open)
    ensures Select(reps, open, false) != Some(best)
  {
    var first := Sort(false, Candidates(reps, open))[0];
    SortMembers(false, Candidates(reps, open), first);
  }

  lemma {:induction false} SameRoster(reps: seq<Rep>, others: seq<Rep>)
    requires DistinctReps(reps) && multiset(others) == multiset(reps)
    ensures DistinctReps(others) && forall r :: r in others <==> r in reps
  {
    forall r ensures r in others <==> r in reps {
      assert r in others <==> r in multiset(others);
    }
    forall i, j | 0 <= i < j < |others| ensures others[i].id != others[j].id {
      if others[i].id == others[j].id {
        SameId(reps, others[i], others[j]);
        Without(others, i);
        var without := others[..i] + others[i + 1..];
        assert without[j - 1] == others[j];
        assert others[j] in multiset(without);
        DistinctOnce(reps, others[i]);
        assert false;
      }
    }
  }

  lemma SameId(reps: seq<Rep>, a: Rep, b: Rep)
    requires DistinctReps(reps) && a in reps && b in reps && a.id == b.id
    ensures a == b
  {
  }

  /**
   For every roster with distinct IDs and a rep under cap, on all scores: the non-hot branch picks
   the best rep in every order of the roster exactly if no other rep under cap with as few open
   tasks has a lower score that is not positive while the best score is at most one.
   */
  lemma BranchesAgreeIff(reps: seq<Rep>, open: string -> nat, best: Rep)
    requires DistinctReps(reps) && IsBest(reps, open, best)
    ensures (forall others :: multiset(others) == multiset(reps) ==> Select(others, open, false) == Some(best))
            <==> AllClear(reps, open, best)
  {
    if AllClear(reps, open, best) {
      forall others | multiset(others) == multiset(reps) ensures Select(others, open, false) == Some(best) {
        SameRoster(reps, others);
        ClearPicksBest(others, open, best);
      }
    } else {
      var r :| r in reps && UnderCap(r, open(r.id)) && Unclear(AsCandidate(best, open), AsCandidate(r, open));
      var others := UnclearMisses(reps, open, best, r);
    }
  }
}
