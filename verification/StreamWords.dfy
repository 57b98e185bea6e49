/**
 Words across token boundaries.  A boundary mark at the end of what has arrived is accepted, so a
 word that goes on in the next token is spoken in two; exactly when this happens.
 */
module StreamWords {
  import opened Text
  import opened Words
  import opened ChunkPlanner

  // ---------------------------------------------------------------- what a feed takes

  lemma CutTakes(buf: Text, cut: nat) returns (head: Text)
    requires SafeCut(buf, cut)
    ensures buf == head + Rest(buf, cut) && WordEdge(head, Rest(buf, cut))
  {
    var tail := buf[cut..];
    var n := LeadingSpaces(tail);
    head := buf[..cut + n];
    assert n > 0 ==> head[|head| - 1] == tail[..n][n - 1];
    assert n == 0 ==> head == buf[..cut] && tail[n..] == tail;
  }

  lemma EdgeOfLast(head: Text, inner: Text, left: Text)
    requires WordEdge(inner, left) && WordEdge(head, inner + left)
    ensures WordEdge(head + inner, left)
  {
    assert inner == [] ==> inner + left == left && head + inner == head;
  }

  /** The part of the buffer that a feed consumed ends on a word edge. */
  lemma {:induction false} DrainTakes(cfg: Config, st: Plan) returns (taken: Text)
    requires cfg.Valid()
    ensures st.buf == taken + Drain(cfg, st).plan.buf
    ensures WordEdge(taken, Drain(cfg, st).plan.buf)
    decreases |st.buf|
  {
    var c := ChooseCut(cfg, st);
    if c.None? {
      taken := [];
      assert [] + st.buf == st.buf;
    } else {
      CutIsSafe(cfg, st);
      var head := CutTakes(st.buf, c.value);
      var inner := DrainTakes(cfg, Plan(Rest(st.buf, c.value), false));
      taken := head + inner;
      var left := Drain(cfg, st).plan.buf;
      Assoc(head, inner, left);
      EdgeOfLast(head, inner, left);
    }
  }

  /** Its words are exactly the words emitted. */
  lemma TakenWords(cfg: Config, st: Plan, taken: Text)
    requires cfg.Valid()
    requires st.buf == taken + Drain(cfg, st).plan.buf && WordEdge(taken, Drain(cfg, st).plan.buf)
    ensures Split(taken) == ChunkWords(Drain(cfg, st).chunks)
  {
    var d := Drain(cfg, st);
    DrainConserves(cfg, st);
    SplitConcat(taken, d.plan.buf);
    SameTail(Split(taken), ChunkWords(d.chunks), Split(d.plan.buf));
  }

  lemma SameTail<T>(a: seq<T>, b: seq<T>, c: seq<T>)
    requires a + c == b + c
    ensures a == b
  {
    assert |a + c| == |a| + |c| && |b + c| == |b| + |c|;
    assert a == (a + c)[..|a|] && b == (b + c)[..|b|];
  }

  // ---------------------------------------------------------------- the guard that fails

  predicate AnyMark(c: Code) {
    Mark(false, c) || Mark(true, c)
  }

  /**
   The text ends in a mark and is long enough: a clause-final one past the minimum, either kind
   past the first budget while the first chunk is pending, either kind at the ceiling.
   */
  predicate Closes(cfg: Config, st: Plan) {
    && st.buf != [] && AnyMark(st.buf[|st.buf| - 1])
    && (|| WordCount(st.buf) >= cfg.maxWords
        || (st.first && WordCount(st.buf) >= cfg.firstWords)
        || (Mark(false, st.buf[|st.buf| - 1]) && WordCount(st.buf) >= cfg.minWords))
  }

  /** The last piece of a buffer: what is left of it after the cuts that leave something over. */
  function LastPiece(cfg: Config, st: Plan): Plan
    requires cfg.Valid()
    decreases |st.buf|
  {
    var c := ChooseCut(cfg, st);
    if c.None? then st else
    CutIsSafe(cfg, st);
    var rest := Plan(Rest(st.buf, c.value), false);
    if rest.buf == [] then st else LastPiece(cfg, rest)
  }

  /** Feeding `token` severs a word: the last piece closes, and a word character follows. */
  predicate Severs(cfg: Config, st: Plan, token: Text, following: Text)
    requires cfg.Valid()
  {
    && Closes(cfg, LastPiece(cfg, st.(buf := st.buf + token)))
    && following != [] && !IsSpace(following[0])
  }

  lemma MarkIsNotSpace(c: Code)
    requires AnyMark(c)
    ensures !IsSpace(c)
  {
    NotSpace(c);
  }

  /** A piece that closes offers a cut. */
  lemma ClosingIsCut(cfg: Config, st: Plan)
    requires cfg.Valid() && Closes(cfg, st)
    ensures ChooseCut(cfg, st).Some?
  {
    var n := |st.buf|;
    assert st.buf[..n] == st.buf;
    var soft := !Mark(false, st.buf[n - 1]);
    WordAtLeast(st.buf);
    assert IsBoundary(st.buf, soft, 1, n);
    assert WordCount(st.buf) >= cfg.firstWords ==> IsBoundary(st.buf, soft, cfg.firstWords, n);
    assert WordCount(st.buf) >= cfg.minWords ==> IsBoundary(st.buf, soft, cfg.minWords, n);
  }

  lemma WordAtLeast(s: Text)
    requires s != [] && AnyMark(s[|s| - 1])
    ensures WordCount(s) >= 1
  {
    MarkIsNotSpace(s[|s| - 1]);
    EndsInWord(s);
  }

  lemma {:induction false} EndsInWord(s: Text)
    requires s != [] && !IsSpace(s[|s| - 1])
    ensures WordCount(s) >= 1
  {
    if IsSpace(s[0]) {
      EndsInWord(s[1..]);
    }
  }

  /** A cut at the very end comes from the guard. */
  lemma CutAtEndCloses(cfg: Config, st: Plan)
    requires cfg.Valid() && st.buf != [] && !IsSpace(st.buf[|st.buf| - 1])
    requires ChooseCut(cfg, st) == Some(|st.buf|)
    ensures Closes(cfg, st)
  {
    assert st.buf[..|st.buf|] == st.buf;
    if WordCount(st.buf) > cfg.maxWords {
      WordEndIsSafe(st.buf, cfg.maxWords);
    }
  }

  /** What stays in the buffer after a cut ends as the buffer did. */
  lemma RestEnds(buf: Text, cut: nat)
    requires cut <= |buf| && buf != []
    ensures Rest(buf, cut) != [] ==> Rest(buf, cut)[|Rest(buf, cut)| - 1] == buf[|buf| - 1]
    ensures Rest(buf, cut) == [] && !IsSpace(buf[|buf| - 1]) ==> cut == |buf|
  {
    var tail := buf[cut..];
    if cut < |buf| {
      var n := LeadingSpaces(tail);
      assert tail[|tail| - 1] == buf[|buf| - 1];
      assert n == |tail| ==> tail[..n][|tail| - 1] == tail[|tail| - 1];
    }
  }

  /** One cut: the plan that is left, how the last piece and the drain go on from it, and how it ends. */
  lemma NextPiece(cfg: Config, st: Plan) returns (rest: Plan)
    requires cfg.Valid() && st.buf != [] && ChooseCut(cfg, st).Some?
    ensures |rest.buf| < |st.buf|
    ensures LastPiece(cfg, st) == if rest.buf == [] then st else LastPiece(cfg, rest)
    ensures Drain(cfg, st).plan == Drain(cfg, rest).plan
    ensures rest.buf != [] ==> rest.buf[|rest.buf| - 1] == st.buf[|st.buf| - 1]
    ensures rest.buf == [] && !IsSpace(st.buf[|st.buf| - 1]) ==> ChooseCut(cfg, st) == Some(|st.buf|)
  {
    var cut := ChooseCut(cfg, st).value;
    CutIsSafe(cfg, st);
    RestEnds(st.buf, cut);
    rest := Plan(Rest(st.buf, cut), false);
  }

  lemma NothingLeft(cfg: Config, st: Plan)
    requires cfg.Valid() && st.buf == []
    ensures Drain(cfg, st).plan == st
  {
  }

  lemma NoPiece(cfg: Config, st: Plan)
    requires cfg.Valid() && ChooseCut(cfg, st).None?
    ensures LastPiece(cfg, st) == st && Drain(cfg, st).plan == st && !Closes(cfg, st)
  {
    if Closes(cfg, st) {
      ClosingIsCut(cfg, st);
    }
  }

  /** The last piece ends as the buffer does. */
  lemma {:induction false} LastPieceEnds(cfg: Config, st: Plan) returns (last: Plan)
    requires cfg.Valid() && st.buf != []
    ensures last == LastPiece(cfg, st) && last.buf != [] && last.buf[|last.buf| - 1] == st.buf[|st.buf| - 1]
    decreases |st.buf|
  {
    if ChooseCut(cfg, st).None? {
      NoPiece(cfg, st);
      last := st;
    } else {
      var rest := NextPiece(cfg, st);
      if rest.buf == [] {
        last := st;
      } else {
        last := LastPieceEnds(cfg, rest);
      }
    }
  }

  /** The drain of a buffer that ends in a word character: its last piece, and whether it is emptied. */
  lemma {:induction false} Empties(cfg: Config, st: Plan) returns (last: Plan, emptied: bool)
    requires cfg.Valid() && st.buf != [] && !IsSpace(st.buf[|st.buf| - 1])
    ensures last == LastPiece(cfg, st) && emptied == (Drain(cfg, st).plan.buf == []) && emptied == Closes(cfg, last)
    decreases |st.buf|
  {
    if ChooseCut(cfg, st).None? {
      NoPiece(cfg, st);
      last, emptied := st, false;
    } else {
      var rest := NextPiece(cfg, st);
      if rest.buf == [] {
        NothingLeft(cfg, rest);
        CutAtEndCloses(cfg, st);
        last, emptied := st, true;
      } else {
        last, emptied := Empties(cfg, rest);
      }
    }
  }

  lemma ClosesByMark(cfg: Config, piece: Plan)
    requires piece.buf == [] || !AnyMark(piece.buf[|piece.buf| - 1])
    ensures !Closes(cfg, piece)
  {
  }

  lemma SpaceIsNoMark(c: Code)
    requires IsSpace(c)
    ensures !AnyMark(c)
  {
    if AnyMark(c) {
      MarkIsNotSpace(c);
    }
  }

  lemma EmptyPiece(cfg: Config, st: Plan)
    requires cfg.Valid() && st.buf == []
    ensures LastPiece(cfg, st) == st
  {
  }

  /** White space at the end is never part of what closes. */
  lemma SpaceDoesNotClose(cfg: Config, st: Plan)
    requires cfg.Valid() && (st.buf == [] || IsSpace(st.buf[|st.buf| - 1]))
    ensures !Closes(cfg, LastPiece(cfg, st))
  {
    var last := st;
    if st.buf == [] {
      EmptyPiece(cfg, st);
    } else {
      last := LastPieceEnds(cfg, st);
      SpaceIsNoMark(last.buf[|last.buf| - 1]);
    }
    ClosesByMark(cfg, last);
  }

  /** The guard says what the feed does: everything is sent, though the last word goes on. */
  lemma SeversIff(cfg: Config, st: Plan, token: Text, following: Text)
    requires cfg.Valid()
    ensures Severs(cfg, st, token, following)
            <==> FeedPlan(cfg, st, token).plan.buf == [] && !WordEdge(st.buf + token, following)
  {
    var next := st.(buf := st.buf + token);
    if next.buf == [] || IsSpace(next.buf[|next.buf| - 1]) {
      SpaceDoesNotClose(cfg, next);
    } else {
      var last, emptied := Empties(cfg, next);
    }
  }

  // ---------------------------------------------------------------- words of a stream

  /** How many tokens of a stream sever a word. */
  function Severed(cfg: Config, st: Plan, tokens: seq<Text>): nat
    requires cfg.Valid()
    decreases |tokens|
  {
    if tokens == [] then 0 else
    (if Severs(cfg, st, tokens[0], Concat(tokens[1..])) then 1 else 0)
    + Severed(cfg, FeedPlan(cfg, st, tokens[0]).plan, tokens[1..])
  }

  lemma {:induction false} StreamWords(cfg: Config, st: Plan, tokens: seq<Text>)
    requires cfg.Valid()
    ensures |ChunkWords(Spoken(cfg, st, tokens))|
            == WordCount(st.buf + Concat(tokens)) + Severed(cfg, st, tokens)
    ensures Severed(cfg, st, tokens) == 0 ==>
              ChunkWords(Spoken(cfg, st, tokens)) == Split(st.buf + Concat(tokens))
    decreases |tokens|
  {
    if tokens == [] {
      FlushOnly(cfg, st);
      assert st.buf + Concat(tokens) == st.buf;
    } else {
      var now, following := FeedPlan(cfg, st, tokens[0]), Concat(tokens[1..]);
      StreamWords(cfg, now.plan, tokens[1..]);
      SpokenStep(cfg, st, tokens);
      ChunkWordsAppend(now.chunks, Spoken(cfg, now.plan, tokens[1..]));
      Assoc(st.buf, tokens[0], following);
      FeedWords(cfg, st, tokens[0], following);
    }
  }

  /** One feed, with all that is still to come: the emitted words leave, unless the last one was severed. */
  lemma FeedWords(cfg: Config, st: Plan, token: Text, following: Text)
    requires cfg.Valid()
    ensures var now := FeedPlan(cfg, st, token);
            if Severs(cfg, st, token, following) then
              WordCount(st.buf + token + following) + 1
              == |ChunkWords(now.chunks)| + WordCount(now.plan.buf + following)
            else
              Split(st.buf + token + following)
              == ChunkWords(now.chunks) + Split(now.plan.buf + following)
  {
    var now := FeedPlan(cfg, st, token);
    var taken := DrainTakes(cfg, st.(buf := st.buf + token));
    TakenWords(cfg, st.(buf := st.buf + token), taken);
    SeversIff(cfg, st, token, following);
    var left := now.plan.buf + following;
    Assoc(taken, now.plan.buf, following);
    assert now.plan.buf == [] ==> taken == st.buf + token && left == following;
    if WordEdge(taken, left) {
      SplitConcat(taken, left);
    } else {
      CutWordCountsTwice(taken, left);
    }
  }

  /**
   Word for word, what is spoken is the text of the whole stream exactly when no token
   severs a word; each severing token makes one word too many.
   */
  lemma StreamKeepsWordsIff(cfg: Config, tokens: seq<Text>)
    requires cfg.Valid()
    ensures ChunkWords(Spoken(cfg, START, tokens)) == Split(Concat(tokens))
            <==> Severed(cfg, START, tokens) == 0
  {
    StreamWords(cfg, START, tokens);
    assert [] + Concat(tokens) == Concat(tokens);
  }

  // ---------------------------------------------------------------- a condition on the tokens alone

  /** A mark directly before a word character. */
  predicate Exposed(before: Text, following: Text) {
    before != [] && AnyMark(before[|before| - 1]) && following != [] && !IsSpace(following[0])
  }

  /** No token boundary falls between a mark and a word character. */
  ghost predicate NoMarkExposed(tokens: seq<Text>) {
    forall i :: 0 <= i <= |tokens| ==> !Exposed(Concat(tokens[..i]), Concat(tokens[i..]))
  }

  /** The same for the boundaries after `seen`, token by token. */
  predicate Covered(seen: Text, tokens: seq<Text>)
    decreases |tokens|
  {
    tokens == []
    || (!Exposed(seen + tokens[0], Concat(tokens[1..])) && Covered(seen + tokens[0], tokens[1..]))
  }

  predicate EndsIn(seen: Text, buf: Text) {
    |buf| <= |seen| && seen[|seen| - |buf|..] == buf
  }

  lemma EndsInAppend(seen: Text, buf: Text, token: Text)
    requires EndsIn(seen, buf)
    ensures EndsIn(seen + token, buf + token)
  {
    var front := seen[..|seen| - |buf|];
    assert seen == front + buf;
    Assoc(front, buf, token);
  }

  lemma FeedEndsIn(cfg: Config, st: Plan, token: Text, seen: Text)
    requires cfg.Valid() && EndsIn(seen, st.buf)
    ensures EndsIn(seen + token, FeedPlan(cfg, st, token).plan.buf)
  {
    EndsInAppend(seen, st.buf, token);
    var taken := DrainTakes(cfg, st.(buf := st.buf + token));
    EndsInLess(seen + token, taken, FeedPlan(cfg, st, token).plan.buf);
  }

  lemma EndsInLess(seen: Text, taken: Text, left: Text)
    requires EndsIn(seen, taken + left)
    ensures EndsIn(seen, left)
  {
    var front := seen[..|seen| - |taken + left|];
    assert seen == front + (taken + left);
    Assoc(front, taken, left);
    assert seen == (front + taken) + left;
  }

  /** A buffer whose last piece closes ends in a mark. */
  lemma ClosedByMark(cfg: Config, st: Plan)
    requires cfg.Valid() && Closes(cfg, LastPiece(cfg, st))
    ensures st.buf != [] && AnyMark(st.buf[|st.buf| - 1])
  {
    if st.buf == [] {
      SpaceDoesNotClose(cfg, st);
    } else {
      var last := LastPieceEnds(cfg, st);
    }
  }

  lemma EndsInLast(seen: Text, buf: Text)
    requires EndsIn(seen, buf) && buf != []
    ensures seen != [] && seen[|seen| - 1] == buf[|buf| - 1]
  {
  }

  /** A severed word shows a mark right before it. */
  lemma SeveringExposes(cfg: Config, st: Plan, token: Text, following: Text, seen: Text)
    requires cfg.Valid() && EndsIn(seen, st.buf) && Severs(cfg, st, token, following)
    ensures Exposed(seen + token, following)
  {
    ClosedByMark(cfg, st.(buf := st.buf + token));
    EndsInAppend(seen, st.buf, token);
    EndsInLast(seen + token, st.buf + token);
  }

  lemma {:induction false} CoveredKeepsWords(cfg: Config, st: Plan, seen: Text, tokens: seq<Text>)
    requires cfg.Valid() && EndsIn(seen, st.buf) && Covered(seen, tokens)
    ensures Severed(cfg, st, tokens) == 0
    decreases |tokens|
  {
    if tokens != [] {
      FeedEndsIn(cfg, st, tokens[0], seen);
      CoveredKeepsWords(cfg, FeedPlan(cfg, st, tokens[0]).plan, seen + tokens[0], tokens[1..]);
      if Severs(cfg, st, tokens[0], Concat(tokens[1..])) {
        SeveringExposes(cfg, st, tokens[0], Concat(tokens[1..]), seen);
      }
    }
  }

  /** With a ceiling of one word every mark at the end closes. */
  lemma TightestCloses(cfg: Config, piece: Plan)
    requires cfg.Valid() && cfg.maxWords == 1 && piece.buf != [] && AnyMark(piece.buf[|piece.buf| - 1])
    ensures Closes(cfg, piece)
  {
    WordAtLeast(piece.buf);
  }

  lemma TightestSevers(cfg: Config, st: Plan, token: Text, following: Text)
    requires cfg.Valid() && cfg.maxWords == 1 && Exposed(st.buf + token, following)
    ensures Severs(cfg, st, token, following)
  {
    var last := LastPieceEnds(cfg, st.(buf := st.buf + token));
    TightestCloses(cfg, last);
  }

  lemma {:induction false} ExposedIsSevered(cfg: Config, st: Plan, seen: Text, tokens: seq<Text>)
    requires cfg.Valid() && cfg.maxWords == 1 && EndsIn(seen, st.buf) && !Covered(seen, tokens)
    requires st.buf == [] ==> !Exposed(seen, Concat(tokens))
    ensures Severed(cfg, st, tokens) >= 1
    decreases |tokens|
  {
    var following := Concat(tokens[1..]);
    EndsInAppend(seen, st.buf, tokens[0]);
    if Exposed(seen + tokens[0], following) {
      TightestSevers(cfg, st, tokens[0], following);
    } else {
      FeedEndsIn(cfg, st, tokens[0], seen);
      ExposedIsSevered(cfg, FeedPlan(cfg, st, tokens[0]).plan, seen + tokens[0], tokens[1..]);
    }
  }

  lemma {:induction false} CoveredIff(seen: Text, tokens: seq<Text>)
    ensures Covered(seen, tokens)
            <==> forall i :: 0 < i <= |tokens| ==> !Exposed(seen + Concat(tokens[..i]), Concat(tokens[i..]))
    decreases |tokens|
  {
    if tokens != [] {
      var rest, more := tokens[1..], seen + tokens[0];
      CoveredIff(more, rest);
      forall i | 0 <= i <= |rest|
        ensures seen + Concat(tokens[..i + 1]) == more + Concat(rest[..i]) && tokens[i + 1..] == rest[i..]
      {
        assert tokens[..i + 1] == [tokens[0]] + rest[..i];
        Assoc(seen, tokens[0], Concat(rest[..i]));
      }
      assert seen + Concat(tokens[..1]) == more + Concat(rest[..0]) == more;
      assert forall i :: 0 < i <= |tokens| ==> tokens[i..] == rest[i - 1..];
    }
  }

  /**
   A condition that needs no planner: the words of a stream are kept whatever the budgets exactly
   if no token boundary falls between a mark and a word character.
   */
  lemma KeepsWordsForAllBudgetsIff(tokens: seq<Text>, connectors: seq<Text>)
    ensures (forall cfg: Config :: cfg.Valid() && cfg.connectors == connectors ==>
               ChunkWords(Spoken(cfg, START, tokens)) == Split(Concat(tokens)))
            <==> NoMarkExposed(tokens)
  {
    CoveredFromStart(tokens);
    if Covered([], tokens) {
      forall cfg: Config | cfg.Valid()
        ensures ChunkWords(Spoken(cfg, START, tokens)) == Split(Concat(tokens))
      {
        CoveredKeepsWords(cfg, START, [], tokens);
        StreamKeepsWordsIff(cfg, tokens);
      }
    } else {
      var tightest := Config(1, 1, 1, connectors);
      ExposedIsSevered(tightest, START, [], tokens);
      StreamKeepsWordsIff(tightest, tokens);
    }
  }

  lemma CoveredFromStart(tokens: seq<Text>)
    ensures Covered([], tokens) <==> NoMarkExposed(tokens)
  {
    CoveredIff([], tokens);
    assert forall i :: 0 <= i <= |tokens| ==> [] + Concat(tokens[..i]) == Concat(tokens[..i]);
    assert Concat(tokens[..0]) == [];
  }
}
