/**
 Choice of the salesperson for a handoff (`assignment.Select`): reps under their cap, sorted by
 a comparator with a hot and a non-hot branch, the first one taken.
 */
module Assignment {
  import opened Text

  datatype Rep = Rep(id: string, tenant: string, team: string, manager: string,
                     score: real, maxOpenTasks: int, active: bool)

  datatype Candidate = Candidate(rep: Rep, openTasks: nat)

  /** Byte-wise order of strings. */
  predicate Before(a: string, b: string) {
    b != [] && (a == [] || a[0] < b[0] || (a[0] == b[0] && Before(a[1..], b[1..])))
  }

  function Weight(c: Candidate): (w: real)
    ensures w > 0.0
  {
    if c.rep.score <= 0.0 then 1.0 else c.rep.score
  }

  function WeightedLoad(c: Candidate): real {
    (c.openTasks + 1) as real / Weight(c)
  }

  /** The comparator given to the stable sort. */
  predicate Less(hot: bool, a: Candidate, b: Candidate) {
    if a.openTasks != b.openTasks then a.openTasks < b.openTasks
    else if hot && a.rep.score != b.rep.score then a.rep.score > b.rep.score
    else if a.rep.score != b.rep.score then WeightedLoad(a) < WeightedLoad(b)
    else Before(a.rep.id, b.rep.id)
  }

  // ---------------------------------------------------------------- the comparator as an order

  /** The intended order: fewest open tasks, then highest score, then smallest ID. */
  predicate Better(a: Candidate, b: Candidate) {
    || a.openTasks < b.openTasks
    || (a.openTasks == b.openTasks && a.rep.score > b.rep.score)
    || (a.openTasks == b.openTasks && a.rep.score == b.rep.score && Before(a.rep.id, b.rep.id))
  }

  lemma {:induction false} BeforeOrder(a: string, b: string, c: string)
    ensures !Before(a, a)
    ensures Before(a, b) && Before(b, c) ==> Before(a, c)
    ensures a != b ==> Before(a, b) || Before(b, a)
    ensures !(Before(a, b) && Before(b, a))
    decreases |a| + |b| + |c|
  {
    if a != [] && b != [] {
      if c != [] {
        BeforeOrder(a[1..], b[1..], c[1..]);
      } else {
        BeforeOrder(a[1..], b[1..], c);
      }
      assert a[0] == b[0] && a[1..] == b[1..] ==> a == [a[0]] + a[1..] && b == [b[0]] + b[1..];
    }
    if a != [] {
      BeforeOrder(a[1..], [], []);
    }
  }

  /** Byte-wise order: a proper prefix comes first, and otherwise the first difference decides. */
  lemma {:induction false} BeforeIff(a: string, b: string, n: nat)
    requires n <= |a| && n <= |b| && a[..n] == b[..n]
    requires n == |a| || n == |b| || a[n] != b[n]
    ensures Before(a, b) <==> n < |b| && (n == |a| || a[n] < b[n])
    decreases n
  {
    if n > 0 {
      assert a[0] == a[..n][0] && b[0] == b[..n][0];
      assert a[1..][..n - 1] == a[..n][1..] && b[1..][..n - 1] == b[..n][1..];
      BeforeIff(a[1..], b[1..], n - 1);
    }
  }

  lemma LoadOrder(n: real, u: real, v: real)
    requires n > 0.0 && u > 0.0 && v > 0.0
    ensures n / u < n / v <==> u > v
  {
    var x, y := n / u, n / v;
    assert x * u == n && y * v == n;
    if u > v {
      assert x * u == y * v && y > 0.0;
      if x >= y {
        assert x * u >= y * u && y * u > y * v;
      }
    } else {
      assert x > 0.0;
      if x < y {
        assert x * u < y * u && y * u <= y * v;
      }
    }
  }

  /** On two candidates that differ in score only, the branches agree with the order exactly if the weights do. */
  lemma LessIsBetterIff(a: Candidate, b: Candidate)
    ensures Less(true, a, b) <==> Better(a, b)
    ensures (Less(false, a, b) <==> Better(a, b))
            <==> (a.openTasks == b.openTasks && a.rep.score != b.rep.score ==>
                    (Weight(a) > Weight(b) <==> a.rep.score > b.rep.score))
  {
    LoadOrder((a.openTasks + 1) as real, Weight(a), Weight(b));
  }

  ghost predicate Positive(cs: seq<Candidate>) {
    forall i :: 0 <= i < |cs| ==> cs[i].rep.score > 0.0
  }

  ghost predicate DistinctIds(cs: seq<Candidate>) {
    forall i, j :: 0 <= i < j < |cs| ==> cs[i].rep.id != cs[j].rep.id
  }

  /** For positive scores the comparator, hot or not, is the intended order. */
  lemma LessIsBetter(hot: bool, a: Candidate, b: Candidate)
    requires a.rep.score > 0.0 && b.rep.score > 0.0
    ensures Less(hot, a, b) <==> Better(a, b)
  {
    LessIsBetterIff(a, b);
  }

  /** The intended order is a strict total order on candidates with distinct IDs. */
  lemma BetterIsStrictTotal(a: Candidate, b: Candidate, c: Candidate)
    ensures !Better(a, a)
    ensures Better(a, b) && Better(b, c) ==> Better(a, c)
    ensures a.rep.id != b.rep.id ==> Better(a, b) || Better(b, a)
    ensures !(Better(a, b) && Better(b, a))
  {
    BeforeOrder(a.rep.id, b.rep.id, c.rep.id);
    BeforeOrder(a.rep.id, b.rep.id, a.rep.id);
  }

  /** With a score of zero beside a score of one, the non-hot branch orders neither before the other. */
  lemma ZeroScoreTies(a: Rep, b: Rep, open: nat)
    requires a.score == 0.0 && b.score == 1.0
    ensures !Less(false, Candidate(a, open), Candidate(b, open))
    ensures !Less(false, Candidate(b, open), Candidate(a, open))
    ensures Better(Candidate(b, open), Candidate(a, open))
  {
    LoadOrder((open + 1) as real, 1.0, 1.0);
  }

  // ---------------------------------------------------------------- selection

  predicate UnderCap(rep: Rep, open: nat) {
    rep.maxOpenTasks <= 0 || open < rep.maxOpenTasks
  }

  /** The candidates: reps under their cap with their open-task count, in list order. */
  function Candidates(reps: seq<Rep>, open: string -> nat): (cs: seq<Candidate>)
    ensures forall c :: c in cs <==> c.rep in reps && c.openTasks == open(c.rep.id) && UnderCap(c.rep, c.openTasks)
  {
    if reps == [] then [] else
    var before := Candidates(reps[..|reps| - 1], open);
    var rep := reps[|reps| - 1];
    assert forall r :: r in reps <==> r in reps[..|reps| - 1] || r == rep;
    if UnderCap(rep, open(rep.id)) then before + [Candidate(rep, open(rep.id))] else before
  }

  /** Stable insertion of `c` into a sorted prefix: it moves left past everything it is less than. */
  function Insert(hot: bool, cs: seq<Candidate>, c: Candidate): (r: seq<Candidate>)
    ensures multiset(r) == multiset(cs) + multiset{c}
  {
    if cs == [] || !Less(hot, c, cs[|cs| - 1]) then
      assert multiset(cs + [c]) == multiset(cs) + multiset{c};
      cs + [c]
    else
      var n := |cs| - 1;
      assert cs == cs[..n] + [cs[n]];
      Insert(hot, cs[..n], c) + [cs[n]]
  }

  function Sort(hot: bool, cs: seq<Candidate>): (r: seq<Candidate>)
    ensures multiset(r) == multiset(cs)
  {
    if cs == [] then [] else
    var n := |cs| - 1;
    assert cs == cs[..n] + [cs[n]];
    Insert(hot, Sort(hot, cs[..n]), cs[n])
  }

  function Select(reps: seq<Rep>, open: string -> nat, hot: bool): Option<Rep> {
    var sorted := Sort(hot, Candidates(reps, open));
    if sorted == [] then None else Some(sorted[0].rep)
  }

  /** The stable sort by insertion: a permutation, whatever the comparator does. */
  method StableSort(hot: bool, cs: seq<Candidate>) returns (sorted: seq<Candidate>)
    ensures sorted == Sort(hot, cs) && multiset(sorted) == multiset(cs)
  {
    sorted := [];
    for i := 0 to |cs|
      invariant sorted == Sort(hot, cs[..i])
    {
      assert cs[..i + 1][..i] == cs[..i];
      sorted := Insert(hot, sorted, cs[i]);
    }
    assert cs[..|cs|] == cs;
  }

  /** Whatever the scores, the pick is an eligible rep, and there is one exactly if some rep is eligible. */
  lemma SelectIsEligible(reps: seq<Rep>, open: string -> nat, hot: bool)
    ensures var r := Select(reps, open, hot);
            && (r.Some? ==> r.value in reps
                            && (r.value.maxOpenTasks <= 0 || open(r.value.id) < r.value.maxOpenTasks))
            && (r.None? <==> forall rep :: rep in reps ==> rep.maxOpenTasks > 0 && open(rep.id) >= rep.maxOpenTasks)
  {
    var cs := Candidates(reps, open);
    var sorted := Sort(hot, cs);
    assert |sorted| == |multiset(sorted)| == |multiset(cs)| == |cs|;
    if sorted != [] {
      assert sorted[0] in multiset(sorted);
      assert sorted[0] in cs;
    }
    forall rep | rep in reps && UnderCap(rep, open(rep.id))
      ensures cs != []
    {
      assert Candidate(rep, open(rep.id)) in cs;
    }
    if cs != [] {
      assert cs[0] in cs;
    }
  }

  // ---------------------------------------------------------------- the pick is the unique best

  ghost predicate Sorted(cs: seq<Candidate>) {
    forall i, j :: 0 <= i < j < |cs| ==> Better(cs[i], cs[j])
  }

  ghost predicate PositiveAndDistinct(reps: seq<Rep>) {
    && (forall i :: 0 <= i < |reps| ==> reps[i].score > 0.0)
    && (forall i, j :: 0 <= i < j < |reps| ==> reps[i].id != reps[j].id)
  }

  /** `c` is comparable: positive, and of another ID than everything in `cs`. */
  ghost predicate Fits(cs: seq<Candidate>, c: Candidate) {
    c.rep.score > 0.0 && forall i :: 0 <= i < |cs| ==> cs[i].rep.score > 0.0 && cs[i].rep.id != c.rep.id
  }

  lemma {:induction false} InsertSorts(hot: bool, cs: seq<Candidate>, c: Candidate)
    requires Sorted(cs) && Fits(cs, c)
    ensures Sorted(Insert(hot, cs, c))
    decreases |cs|
  {
    if cs != [] {
      var n := |cs| - 1;
      LessIsBetter(hot, c, cs[n]);
      BetterIsStrictTotal(c, cs[n], c);
      if Less(hot, c, cs[n]) {
        InsertSorts(hot, cs[..n], c);
        var r := Insert(hot, cs[..n], c);
        forall i | 0 <= i < |r|
          ensures Better(r[i], cs[n])
        {
          assert r[i] in multiset(r);
          assert r[i] in multiset(cs[..n]) || r[i] == c;
          assert r[i] in cs[..n] || r[i] == c;
        }
      } else {
        forall i | 0 <= i < n
          ensures Better(cs[i], c)
        {
          BetterIsStrictTotal(cs[i], cs[n], c);
        }
      }
    }
  }

  lemma {:induction false} SortSorts(hot: bool, cs: seq<Candidate>)
    requires Positive(cs) && DistinctIds(cs)
    ensures Sorted(Sort(hot, cs))
    decreases |cs|
  {
    if cs != [] {
      var n := |cs| - 1;
      SortSorts(hot, cs[..n]);
      var before := Sort(hot, cs[..n]);
      forall i | 0 <= i < |before|
        ensures before[i].rep.score > 0.0 && before[i].rep.id != cs[n].rep.id
      {
        assert before[i] in multiset(before);
        assert before[i] in cs[..n];
      }
      InsertSorts(hot, before, cs[n]);
    }
  }

  lemma {:induction false} CandidatesFit(reps: seq<Rep>, open: string -> nat)
    requires PositiveAndDistinct(reps)
    ensures Positive(Candidates(reps, open)) && DistinctIds(Candidates(reps, open))
    decreases |reps|
  {
    if reps != [] {
      var n := |reps| - 1;
      CandidatesFit(reps[..n], open);
      var before := Candidates(reps[..n], open);
      forall i | 0 <= i < |before|
        ensures before[i].rep.id != reps[n].id
      {
        assert before[i] in before;
      }
    }
  }

  /** The best eligible rep: at least as good as every other under the intended order. */
  ghost predicate IsBest(reps: seq<Rep>, open: string -> nat, best: Rep) {
    && best in reps && UnderCap(best, open(best.id))
    && forall r :: r in reps && UnderCap(r, open(r.id)) ==>
         r == best || Better(Candidate(best, open(best.id)), Candidate(r, open(r.id)))
  }

  lemma SelectIsBest(reps: seq<Rep>, open: string -> nat, hot: bool)
    requires PositiveAndDistinct(reps) && Select(reps, open, hot).Some?
    ensures IsBest(reps, open, Select(reps, open, hot).value)
  {
    var cs := Candidates(reps, open);
    var sorted, best := Sort(hot, cs), Select(reps, open, hot).value;
    SelectIsEligible(reps, open, hot);
    CandidatesFit(reps, open);
    SortSorts(hot, cs);
    assert sorted[0] in multiset(sorted);
    assert sorted[0] in cs;
    forall r | r in reps && UnderCap(r, open(r.id)) && r != best
      ensures Better(Candidate(best, open(best.id)), Candidate(r, open(r.id)))
    {
      var c := Candidate(r, open(r.id));
      assert c in multiset(cs);
      assert c in multiset(sorted);
      var i :| 0 <= i < |sorted| && sorted[i] == c;
      assert i != 0;
    }
  }

  /** Input order and temperature do not matter: permuted rosters give the same rep. */
  lemma SelectIgnoresOrder(reps: seq<Rep>, others: seq<Rep>, open: string -> nat, hot: bool, hot': bool)
    requires PositiveAndDistinct(reps) && PositiveAndDistinct(others)
    requires forall r :: r in reps <==> r in others
    ensures Select(reps, open, hot) == Select(others, open, hot')
  {
    SelectIsEligible(reps, open, hot);
    SelectIsEligible(others, open, hot');
    var a, b := Select(reps, open, hot), Select(others, open, hot');
    if a.Some? {
      SelectIsBest(reps, open, hot);
      SelectIsBest(others, open, hot');
      BetterIsStrictTotal(Candidate(a.value, open(a.value.id)), Candidate(b.value, open(b.value.id)),
                          Candidate(a.value, open(a.value.id)));
    }
  }
}
