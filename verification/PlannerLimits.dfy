/**
 Inputs on which the chunk planner does less than its documentation says, for every budget it
 accepts: a severed decimal, a chunk over the ceiling, a connector that is passed over.
 */
module PlannerLimits {
  import opened Text
  import opened Words
  import opened ChunkPlanner
  import opened ConnectorRule
  import opened StreamWords

  // ---------------------------------------------------------------- filler words

  const BLANK: Code := 0x20

  /** A word and a blank: "x ". */
  const WORD: Text := [0x78, BLANK]

  /** The word `n` times, a blank after each. */
  function Filler(n: nat): Text {
    if n == 0 then [] else Filler(n - 1) + WORD
  }

  /** Nothing but filler characters: no mark, and no letter of a connector. */
  predicate Plain(s: Text) {
    forall i :: 0 <= i < |s| ==> s[i] in {0x78, BLANK}
  }

  lemma BlankIsSpace()
    ensures IsSpace(BLANK)
  {
    assert InRanges(BLANK, SPACES[1..]);
  }

  lemma {:induction false} FillerIs(n: nat)
    ensures WordCount(Filler(n)) == n && Plain(Filler(n))
    ensures n > 0 ==> Filler(n) != [] && Filler(n)[|Filler(n)| - 1] == BLANK
  {
    if n > 0 {
      FillerIs(n - 1);
      BlankIsSpace();
      WordIsOne();
      SplitConcat(Filler(n - 1), WORD);
    }
  }

  lemma WordIsOne()
    ensures WordCount(WORD) == 1
  {
    BlankIsSpace();
    OneWord([0x78], [BLANK]);
    assert WORD == [0x78] + [BLANK];
  }

  /** A run of word characters and then white space is one word. */
  lemma OneWord(w: Text, space: Text)
    requires w != [] && AllSpace(space)
    requires forall i :: 0 <= i < |w| ==> 0x21 <= w[i] < 0x80 || 0x900 <= w[i] < 0x980
    ensures WordCount(w + space) == 1 && forall i :: 0 <= i < |w| ==> !IsSpace(w[i])
  {
    forall i | 0 <= i < |w| ensures !IsSpace(w[i]) {
      NotSpace(w[i]);
    }
    SplitRun(w, space);
    SpaceHasNoWord(space);
  }

  /** A word after filler adds one to the count. */
  lemma WordAfterFiller(n: nat, w: Text, space: Text)
    requires w != [] && AllSpace(space)
    requires forall i :: 0 <= i < |w| ==> 0x21 <= w[i] < 0x80 || 0x900 <= w[i] < 0x980
    ensures WordCount(Filler(n) + (w + space)) == n + 1
  {
    FillerIs(n);
    BlankIsSpace();
    OneWord(w, space);
    SplitConcat(Filler(n), w + space);
  }

  // ---------------------------------------------------------------- cuts at the only mark

  /** The text ends in its only mark, a clause-final one. */
  predicate OnlyMarkAtEnd(s: Text) {
    && s != [] && Mark(false, s[|s| - 1])
    && forall i :: 0 <= i < |s| - 1 ==> !AnyMark(s[i])
  }

  lemma OnlyBoundary(buf: Text, includeSoft: bool, m: nat)
    requires OnlyMarkAtEnd(buf) && m <= WordCount(buf)
    ensures BoundaryCut(buf, includeSoft, m) == Some(|buf|)
  {
    assert buf[..|buf|] == buf;
    assert IsBoundary(buf, false, m, |buf|);
    assert forall e :: 0 <= e < |buf| ==> !IsBoundary(buf, false, m, e);
  }

  lemma WholeIsCut(cfg: Config, st: Plan)
    requires cfg.Valid() && OnlyMarkAtEnd(st.buf) && Closes(cfg, st)
    ensures ChooseCut(cfg, st) == Some(|st.buf|)
  {
    WordAtLeast(st.buf);
    OnlyBoundary(st.buf, true, 1);
    if WordCount(st.buf) >= cfg.firstWords {
      OnlyBoundary(st.buf, true, cfg.firstWords);
    }
    if WordCount(st.buf) >= cfg.minWords {
      OnlyBoundary(st.buf, false, cfg.minWords);
    }
  }

  /** A buffer that closes at its only mark leaves in one chunk. */
  lemma WholeLeaves(cfg: Config, st: Plan)
    requires cfg.Valid() && OnlyMarkAtEnd(st.buf) && Closes(cfg, st)
    ensures Drain(cfg, st) == Fed([Strip(st.buf)], Plan([], false)) && LastPiece(cfg, st) == st
  {
    WholeIsCut(cfg, st);
    assert st.buf[..|st.buf|] == st.buf && Rest(st.buf, |st.buf|) == [];
    assert Drain(cfg, Plan([], false)) == Fed([], Plan([], false));
  }

  // ---------------------------------------------------------------- a decimal is severed

  const THREE: Text := [0x33, 0x2E]                          // "3."
  const FIVE: Text := [0x35, BLANK, 0x6C, 0x61, 0x6B, 0x68]  // "5 lakh"

  /** Too few words for any rule. */
  lemma TooFewWait(cfg: Config, st: Plan)
    requires cfg.Valid() && WordCount(st.buf) < cfg.firstWords
    ensures Drain(cfg, st) == Fed([], st)
  {
  }

  lemma DecimalBuffer(cfg: Config)
    requires cfg.Valid()
    ensures var buf := Filler(cfg.firstWords - 1) + THREE;
            OnlyMarkAtEnd(buf) && WordCount(buf) == cfg.firstWords && Closes(cfg, Plan(buf, true))
  {
    var n := cfg.firstWords - 1;
    FillerIs(n);
    WordAfterFiller(n, THREE, []);
    assert THREE + [] == THREE;
    var buf := Filler(n) + THREE;
    assert buf[|buf| - 1] == 0x2E;
  }

  lemma SeveredSecond(cfg: Config, first: Text, second: Text, third: Text)
    requires cfg.Valid() && FeedPlan(cfg, START, first) == Fed([], Plan(first, true))
    requires Severs(cfg, Plan(first, true), second, third)
    ensures Severed(cfg, START, [first, second, third]) >= 1
  {
    var tokens := [first, second, third];
    assert tokens[1..] == [second, third] && tokens[1..][1..] == [third];
    assert Concat([third]) == third + Concat<Code>([]) == third;
  }

  /**
   For every budget: after one word less than the first budget, "3." and then "5 lakh" is spoken
   with the decimal torn apart, so the words spoken are not the words of the text.
   */
  lemma DecimalIsSevered(cfg: Config)
    requires cfg.Valid()
    ensures var tokens := [Filler(cfg.firstWords - 1), THREE, FIVE];
            && Severed(cfg, START, tokens) >= 1
            && ChunkWords(Spoken(cfg, START, tokens)) != Split(Concat(tokens))
  {
    var pre := Filler(cfg.firstWords - 1);
    FillerIs(cfg.firstWords - 1);
    assert [] + pre == pre;
    TooFewWait(cfg, Plan(pre, true));
    DecimalBuffer(cfg);
    WholeLeaves(cfg, Plan(pre + THREE, true));
    NotSpace(FIVE[0]);
    SeveredSecond(cfg, pre, THREE, FIVE);
    StreamKeepsWordsIff(cfg, [pre, THREE, FIVE]);
  }

  // ---------------------------------------------------------------- connectors and plain text

  /** Connectors in Devanagari letters and signs, as the source has them. */
  predicate Devanagari(connectors: seq<Text>) {
    forall k :: 0 <= k < |connectors| ==> connectors[k] != [] && DevanagariWord(connectors[k])
  }

  predicate DevanagariWord(w: Text) {
    forall i :: 0 <= i < |w| ==> 0x900 <= w[i] < 0x960
  }

  lemma ShippedAreDevanagari()
    ensures DEFAULT.Valid() && Devanagari(CONNECTORS)
  {
  }

  lemma DevanagariAreWords(connectors: seq<Text>)
    requires Devanagari(connectors)
    ensures AreWords(connectors)
  {
    forall k, i | 0 <= k < |connectors| && 0 <= i < |connectors[k]|
      ensures !IsSpace(connectors[k][i])
    {
      NotSpace(connectors[k][i]);
    }
  }

  /** A match starts with a Devanagari letter. */
  lemma {:induction false} ConnectorLetter(buf: Text, p: nat, connectors: seq<Text>)
    requires Devanagari(connectors) && ConnectorEnd(buf, p, connectors).Some?
    ensures p < |buf| && 0x900 <= buf[p] < 0x960
    decreases |connectors|
  {
    var c := connectors[0];
    if p + |c| < |buf| && buf[p..p + |c|] == c && IsSpace(buf[p + |c|]) {
      assert buf[p] == buf[p..p + |c|][0];
    } else {
      ConnectorLetter(buf, p, connectors[1..]);
    }
  }

  lemma NoMarkNoBoundary(buf: Text, m: nat)
    requires forall i :: 0 <= i < |buf| ==> !AnyMark(buf[i])
    ensures BoundaryCut(buf, true, m).None? && BoundaryCut(buf, false, m).None?
  {
    assert forall soft, e :: !IsBoundary(buf, soft, m, e);
  }

  predicate Unmarked(s: Text) {
    forall i :: 0 <= i < |s| ==> !AnyMark(s[i])
  }

  /** No connector past the minimum is free. */
  ghost predicate NoneFree(buf: Text, minWords: nat, connectors: seq<Text>) {
    forall x :: Eligible(buf, minWords, connectors, x) ==> !Free(buf, connectors, x)
  }

  lemma NoneFound(buf: Text, minWords: nat, connectors: seq<Text>)
    requires AreWords(connectors) && NoneFree(buf, minWords, connectors)
    ensures ScanConnector(buf, minWords, connectors, 0).None?
  {
    ConnectorFound(buf, minWords, connectors);
  }

  lemma NothingToCut(cfg: Config, st: Plan)
    requires cfg.Valid() && WordCount(st.buf) <= cfg.maxWords
    requires BoundaryCut(st.buf, true, 1).None? && BoundaryCut(st.buf, true, cfg.firstWords).None?
    requires BoundaryCut(st.buf, false, cfg.minWords).None?
    requires ScanConnector(st.buf, cfg.minWords, cfg.connectors, 0).None?
    ensures ChooseCut(cfg, st).None?
  {
  }

  lemma WaitsUncut(cfg: Config, st: Plan)
    requires cfg.Valid() && ChooseCut(cfg, st).None?
    ensures Drain(cfg, st) == Fed([], st)
  {
  }

  /** Text without a mark and without a free connector waits up to the ceiling. */
  lemma UnmarkedWaits(cfg: Config, st: Plan)
    requires cfg.Valid() && AreWords(cfg.connectors) && WordCount(st.buf) <= cfg.maxWords
    requires Unmarked(st.buf) && NoneFree(st.buf, cfg.minWords, cfg.connectors)
    ensures Drain(cfg, st) == Fed([], st)
  {
    NoneFound(st.buf, cfg.minWords, cfg.connectors);
    NoMarkNoBoundary(st.buf, 1);
    NoMarkNoBoundary(st.buf, cfg.firstWords);
    NoMarkNoBoundary(st.buf, cfg.minWords);
    NothingToCut(cfg, st);
    WaitsUncut(cfg, st);
  }

  // ---------------------------------------------------------------- a chunk over the ceiling

  lemma PlainHasNone(buf: Text, minWords: nat, connectors: seq<Text>)
    requires Devanagari(connectors) && Plain(buf)
    ensures NoneFree(buf, minWords, connectors)
  {
    forall x | Eligible(buf, minWords, connectors, x) ensures !Free(buf, connectors, x) {
      ConnectorLetter(buf, x, connectors);
    }
  }

  lemma PlainWaits(cfg: Config, st: Plan)
    requires cfg.Valid() && Devanagari(cfg.connectors) && Plain(st.buf) && WordCount(st.buf) <= cfg.maxWords
    ensures Drain(cfg, st) == Fed([], st)
  {
    DevanagariAreWords(cfg.connectors);
    PlainHasNone(st.buf, cfg.minWords, cfg.connectors);
    UnmarkedWaits(cfg, st);
  }

  /** The planner holds back `n` filler words and has emitted nothing. */
  function Waiting(n: nat): Plan {
    Plan(Filler(n), true)
  }

  lemma WordWaits(cfg: Config, j: nat)
    requires cfg.Valid() && Devanagari(cfg.connectors) && j < cfg.maxWords
    ensures FeedPlan(cfg, Waiting(j), WORD) == Fed([], Waiting(j + 1))
  {
    FillerIs(j + 1);
    PlainWaits(cfg, Waiting(j + 1));
  }

  /** Feeds without a chunk lead from plan to plan. */
  lemma {:induction false} QuietFeeds(cfg: Config, plans: seq<Plan>, tokens: seq<Text>)
    requires cfg.Valid() && |plans| == |tokens| + 1
    requires forall i :: 0 <= i < |tokens| ==> FeedPlan(cfg, plans[i], tokens[i]) == Fed([], plans[i + 1])
    ensures FeedAll(cfg, plans[0], tokens) == Fed([], plans[|tokens|])
    decreases |tokens|
  {
    if tokens != [] {
      var later, rest := plans[1..], tokens[1..];
      forall i | 0 <= i < |rest| ensures FeedPlan(cfg, later[i], rest[i]) == Fed([], later[i + 1]) {
        assert FeedPlan(cfg, plans[i + 1], tokens[i + 1]) == Fed([], plans[i + 2]);
      }
      QuietFeeds(cfg, later, rest);
      QuietFeed(cfg, plans[0], tokens, later[0]);
    }
  }

  lemma QuietFeed(cfg: Config, st: Plan, tokens: seq<Text>, next: Plan)
    requires cfg.Valid() && tokens != [] && FeedPlan(cfg, st, tokens[0]) == Fed([], next)
    ensures FeedAll(cfg, st, tokens) == FeedAll(cfg, next, tokens[1..])
  {
    var rest := FeedAll(cfg, next, tokens[1..]);
    assert [] + rest.chunks == rest.chunks;
  }

  /** Words that arrive one by one without a mark all wait, up to the ceiling. */
  lemma FillerArrives(cfg: Config, word: Text, n: nat)
    requires cfg.Valid() && Devanagari(cfg.connectors) && word == WORD && n <= cfg.maxWords
    ensures FeedAll(cfg, START, Repeat(word, n)) == Fed([], Waiting(n))
  {
    var plans := seq(n + 1, i requires 0 <= i <= n => Waiting(i));
    var tokens := Repeat(word, n);
    forall i | 0 <= i < n ensures FeedPlan(cfg, plans[i], tokens[i]) == Fed([], plans[i + 1]) {
      WordWaits(cfg, i);
    }
    QuietFeeds(cfg, plans, tokens);
    assert plans[0] == START;
  }

  const LAST: Text := [0x78, 0x2E]                           // "x."

  /** `n` words that end in the only mark: "x x ... x." */
  function Sentence(n: nat): Text
    requires n >= 1
  {
    Filler(n - 1) + LAST
  }

  lemma {:induction false} FillerAppend(j: nat, k: nat)
    ensures Filler(j) + Filler(k) == Filler(j + k)
    decreases k
  {
    if k == 0 {
      assert Filler(j) + [] == Filler(j);
    } else {
      FillerAppend(j, k - 1);
      Assoc(Filler(j), Filler(k - 1), WORD);
    }
  }

  lemma SentenceAppend(j: nat, n: nat)
    requires n >= 1
    ensures Filler(j) + Sentence(n) == Sentence(j + n)
  {
    FillerAppend(j, n - 1);
    Assoc(Filler(j), Filler(n - 1), LAST);
  }

  lemma SentenceWords(n: nat)
    requires n >= 1
    ensures WordCount(Sentence(n)) == n
  {
    WordAfterFiller(n - 1, LAST, []);
    assert LAST + [] == LAST;
  }

  lemma SentenceMark(n: nat)
    requires n >= 1
    ensures OnlyMarkAtEnd(Sentence(n))
  {
    FillerIs(n - 1);
    MarkAfterPlain(Filler(n - 1), LAST[0], LAST[1]);
  }

  lemma MarkAfterPlain(pre: Text, c: Code, mark: Code)
    requires Plain(pre) && !AnyMark(c) && Mark(false, mark)
    ensures OnlyMarkAtEnd(pre + [c, mark])
  {
  }

  /** A text at the ceiling that ends in its only mark leaves in one chunk with all its words. */
  lemma OneChunk(cfg: Config, text: Text)
    requires cfg.Valid() && OnlyMarkAtEnd(text) && WordCount(text) >= cfg.maxWords
    ensures var d := Drain(cfg, Plan(text, true));
            |d.chunks| == 1 && d.plan.buf == [] && WordCount(d.chunks[0]) == WordCount(text)
  {
    WholeLeaves(cfg, Plan(text, true));
    StripKeeps(text);
  }

  lemma SentenceArrives(cfg: Config, pre: Text, sentence: Text)
    requires cfg.Valid() && OnlyMarkAtEnd(pre + sentence) && WordCount(pre + sentence) >= cfg.maxWords
    ensures var d := FeedPlan(cfg, Plan(pre, true), sentence);
            |d.chunks| == 1 && d.plan.buf == [] && WordCount(d.chunks[0]) == WordCount(pre + sentence)
  {
    OneChunk(cfg, pre + sentence);
  }

  /**
   For every budget and every `n`: `maxWords` words arrive one by one and wait, then `n` words with
   a full stop arrive and everything leaves in one chunk.  It is over the ceiling by as much as a
   chunk ever can be.
   */
  lemma CeilingIsExceeded(cfg: Config, n: nat)
    requires cfg.Valid() && Devanagari(cfg.connectors) && n >= 1
    ensures FeedAll(cfg, START, Repeat(WORD, cfg.maxWords)) == Fed([], Waiting(cfg.maxWords))
    ensures var d := FeedPlan(cfg, Waiting(cfg.maxWords), Sentence(n));
            |d.chunks| == 1 && d.plan.buf == [] && WordCount(d.chunks[0]) == cfg.maxWords + n
    ensures WordCount(Sentence(n)) == n
  {
    FillerArrives(cfg, WORD, cfg.maxWords);
    SentenceWords(n);
    SentenceOverCeiling(cfg, n);
  }

  lemma SentenceOverCeiling(cfg: Config, n: nat)
    requires cfg.Valid() && n >= 1
    ensures var d := FeedPlan(cfg, Waiting(cfg.maxWords), Sentence(n));
            |d.chunks| == 1 && d.plan.buf == [] && WordCount(d.chunks[0]) == cfg.maxWords + n
  {
    SentenceAppend(cfg.maxWords, n);
    SentenceWords(cfg.maxWords + n);
    SentenceMark(cfg.maxWords + n);
    SentenceArrives(cfg, Filler(cfg.maxWords), Sentence(n));
  }

  // ---------------------------------------------------------------- a connector is passed over

  lemma {:induction false} ConnectorThere(buf: Text, p: nat, connectors: seq<Text>, w: Text)
    requires AreWords(connectors) && w in connectors && p + |w| < |buf|
    requires buf[p..p + |w|] == w && IsSpace(buf[p + |w|])
    ensures ConnectorEnd(buf, p, connectors) == Some(p + |w| + 1)
    decreases |connectors|
  {
    var c := connectors[0];
    if p + |c| < |buf| && buf[p..p + |c|] == c && IsSpace(buf[p + |c|]) {
      ConnectorIsWord(buf, p, connectors);
      assert forall i :: p <= i < p + |w| ==> buf[i] == w[i - p];
      assert forall i :: p <= i < p + |c| ==> buf[i] == c[i - p];
    } else {
      ConnectorThere(buf, p, connectors[1..], w);
    }
  }

  /** A text, two connectors in a row behind it, and where they stand. */
  predicate Pair(buf: Text, pre: Text, first: Text, second: Text, p: nat, q: nat) {
    && p == |pre| && q == p + |first| + 1 && |buf| == q + |second| + 1
    && buf[..p] == pre && buf[p..q - 1] == first && buf[q - 1] == BLANK
    && buf[q..|buf| - 1] == second && buf[|buf| - 1] == BLANK
  }

  /** Text before the pair: filler that ends in a blank. */
  predicate Before(pre: Text) {
    pre != [] && Plain(pre) && pre[|pre| - 1] == BLANK
  }

  lemma BothThere(buf: Text, pre: Text, first: Text, second: Text, p: nat, q: nat, connectors: seq<Text>)
    requires AreWords(connectors) && first in connectors && second in connectors
    requires Pair(buf, pre, first, second, p, q)
    ensures ConnectorEnd(buf, p, connectors) == Some(q) && ConnectorEnd(buf, q, connectors) == Some(|buf|)
  {
    BlankIsSpace();
    ConnectorThere(buf, p, connectors, first);
    ConnectorThere(buf, q, connectors, second);
  }

  lemma ChainEnds(buf: Text, pre: Text, connectors: seq<Text>)
    requires Devanagari(connectors) && pre != [] && Plain(pre) && pre <= buf
    ensures Chain(buf, connectors, |pre|) == 0
  {
    var s := WordStart(buf, |pre| - 1);
    if ConnectorEnd(buf, s, connectors).Some? {
      ConnectorLetter(buf, s, connectors);
      assert buf[s] == pre[s];
    }
  }

  /** The second connector has exactly one connector in a row before it. */
  lemma SecondIsNotFree(buf: Text, pre: Text, first: Text, second: Text, p: nat, q: nat, connectors: seq<Text>)
    requires Devanagari(connectors) && AreWords(connectors) && Before(pre)
    requires Pair(buf, pre, first, second, p, q) && ConnectorEnd(buf, p, connectors) == Some(q)
    ensures Chain(buf, connectors, q) == 1
  {
    BlankIsSpace();
    assert buf[p - 1] == buf[..p][p - 1] == BLANK;
    ConnectorIsWord(buf, p, connectors);
    WordStartIs(buf, p, q - 1);
    ChainEnds(buf, pre, connectors);
  }

  /** Between the two connectors and behind them no other one can start. */
  lemma OnlyTwo(buf: Text, p: nat, q: nat, connectors: seq<Text>, x: nat)
    requires AreWords(connectors) && p < x <= |buf| && IsSpace(buf[x - 1]) && ConnectorEnd(buf, x, connectors).Some?
    requires ConnectorEnd(buf, p, connectors) == Some(q) && ConnectorEnd(buf, q, connectors) == Some(|buf|)
    ensures x == q
  {
    ConnectorIsWord(buf, p, connectors);
    ConnectorIsWord(buf, q, connectors);
  }

  /** With fewer words than the minimum before the pair, only its second connector is eligible. */
  lemma OnlySecondEligible(buf: Text, pre: Text, p: nat, q: nat, connectors: seq<Text>, minWords: nat, x: nat)
    requires AreWords(connectors) && p == |pre| && pre <= buf && WordCount(pre) < minWords
    requires ConnectorEnd(buf, p, connectors) == Some(q) && ConnectorEnd(buf, q, connectors) == Some(|buf|)
    requires Eligible(buf, minWords, connectors, x)
    ensures x == q
  {
    if x <= p {
      assert buf[..x] == pre[..x];
      PrefixWordCount(pre, x);
    } else {
      OnlyTwo(buf, p, q, connectors, x);
    }
  }

  lemma PairHasNone(buf: Text, pre: Text, p: nat, q: nat, connectors: seq<Text>, minWords: nat)
    requires AreWords(connectors) && p == |pre| && pre <= buf && WordCount(pre) < minWords && q <= |buf|
    requires ConnectorEnd(buf, p, connectors) == Some(q) && ConnectorEnd(buf, q, connectors) == Some(|buf|)
    requires Chain(buf, connectors, q) == 1
    ensures NoneFree(buf, minWords, connectors)
  {
    FreeIff(buf, connectors, q);
    forall x | Eligible(buf, minWords, connectors, x) ensures !Free(buf, connectors, x) {
      OnlySecondEligible(buf, pre, p, q, connectors, minWords, x);
    }
  }

  /** Two connectors in a row behind `pre`. */
  function InARow(pre: Text, first: Text, second: Text): Text {
    pre + ((first + [BLANK]) + (second + [BLANK]))
  }

  lemma InARowIs(pre: Text, first: Text, second: Text)
    ensures Pair(InARow(pre, first, second), pre, first, second, |pre|, |pre| + |first| + 1)
    ensures InARow(pre, first, second)[..|pre| + |first| + 1] == pre + (first + [BLANK])
  {
  }

  lemma PairWords(n: nat, first: Text, second: Text)
    requires first != [] && second != [] && DevanagariWord(first) && DevanagariWord(second)
    ensures WordCount(Filler(n) + (first + [BLANK])) == n + 1
    ensures WordCount(InARow(Filler(n), first, second)) == n + 2
  {
    BlankIsSpace();
    WordAfterFiller(n, first, [BLANK]);
    OneWord(second, [BLANK]);
    var front := Filler(n) + (first + [BLANK]);
    Assoc(Filler(n), first + [BLANK], second + [BLANK]);
    assert front[|front| - 1] == BLANK;
    SplitConcat(front, second + [BLANK]);
  }

  lemma PairUnmarked(n: nat, first: Text, second: Text)
    requires DevanagariWord(first) && DevanagariWord(second)
    ensures Unmarked(InARow(Filler(n), first, second))
  {
    FillerIs(n);
  }

  /** The facts about filler and a pair, in terms of where the two connectors stand. */
  lemma FillerPair(n: nat, first: Text, second: Text) returns (pre: Text, buf: Text, p: nat, q: nat)
    requires first != [] && second != [] && DevanagariWord(first) && DevanagariWord(second) && n >= 1
    ensures pre == Filler(n) && buf == InARow(pre, first, second) && q == |pre| + |first| + 1
    ensures Before(pre) && Pair(buf, pre, first, second, p, q) && Unmarked(buf)
    ensures WordCount(pre) == n && WordCount(buf[..q]) == n + 1 && WordCount(buf) == n + 2
  {
    pre := Filler(n);
    FillerIs(n);
    PairWords(n, first, second);
    PairUnmarked(n, first, second);
    buf, p, q := PairOf(pre, first, second);
  }

  lemma PairOf(pre: Text, first: Text, second: Text) returns (buf: Text, p: nat, q: nat)
    ensures buf == InARow(pre, first, second) && q == |pre| + |first| + 1
    ensures Pair(buf, pre, first, second, p, q) && buf[..q] == pre + (first + [BLANK])
  {
    buf, p, q := InARow(pre, first, second), |pre|, |pre| + |first| + 1;
    InARowIs(pre, first, second);
  }

  /**
   For every budget with room between minimum and ceiling, and any two connectors: after one word
   less than the minimum, the first connector comes too early and the second one, past the minimum,
   is passed over.  Nothing is cut at all.
   */
  lemma ConnectorPairIsMissed(cfg: Config, first: Text, second: Text) returns (pre: Text, buf: Text, q: nat)
    requires cfg.Valid() && Devanagari(cfg.connectors) && 2 <= cfg.minWords < cfg.maxWords
    requires first in cfg.connectors && second in cfg.connectors
    ensures pre == Filler(cfg.minWords - 1) && buf == InARow(pre, first, second) && q == |pre| + |first| + 1
    ensures Eligible(buf, cfg.minWords, cfg.connectors, q)
    ensures FeedPlan(cfg, START, buf) == Fed([], Plan(buf, true))
  {
    ConnectorWord(cfg.connectors, first);
    ConnectorWord(cfg.connectors, second);
    var p;
    pre, buf, p, q := FillerPair(cfg.minWords - 1, first, second);
    PairWaits(cfg, buf, pre, first, second, p, q);
  }

  lemma ConnectorWord(connectors: seq<Text>, w: Text)
    requires Devanagari(connectors) && w in connectors
    ensures w != [] && DevanagariWord(w)
  {
  }

  lemma PairWaits(cfg: Config, buf: Text, pre: Text, first: Text, second: Text, p: nat, q: nat)
    requires cfg.Valid() && Devanagari(cfg.connectors) && first in cfg.connectors && second in cfg.connectors
    requires Before(pre) && Pair(buf, pre, first, second, p, q) && Unmarked(buf)
    requires WordCount(pre) < cfg.minWords <= WordCount(buf[..q]) && WordCount(buf) <= cfg.maxWords
    ensures Eligible(buf, cfg.minWords, cfg.connectors, q)
    ensures FeedPlan(cfg, START, buf) == Fed([], Plan(buf, true))
  {
    PairIsMissed(buf, pre, first, second, p, q, cfg.connectors, cfg.minWords);
    WaitsFromStart(cfg, buf);
  }

  lemma PairIsMissed(buf: Text, pre: Text, first: Text, second: Text, p: nat, q: nat, connectors: seq<Text>, minWords: nat)
    requires Devanagari(connectors) && first in connectors && second in connectors && Before(pre)
    requires Pair(buf, pre, first, second, p, q) && WordCount(pre) < minWords <= WordCount(buf[..q])
    ensures Eligible(buf, minWords, connectors, q) && NoneFree(buf, minWords, connectors)
  {
    DevanagariAreWords(connectors);
    BlankIsSpace();
    BothThere(buf, pre, first, second, p, q, connectors);
    SecondIsNotFree(buf, pre, first, second, p, q, connectors);
    PairHasNone(buf, pre, p, q, connectors, minWords);
  }

  lemma WaitsFromStart(cfg: Config, buf: Text)
    requires cfg.Valid() && Devanagari(cfg.connectors) && WordCount(buf) <= cfg.maxWords
    requires Unmarked(buf) && NoneFree(buf, cfg.minWords, cfg.connectors)
    ensures FeedPlan(cfg, START, buf) == Fed([], Plan(buf, true))
  {
    DevanagariAreWords(cfg.connectors);
    assert [] + buf == buf;
    UnmarkedWaits(cfg, Plan(buf, true));
  }

  /** The shipped planner misses the cut in eleven words and then two connectors, "aur phir". */
  lemma ShippedConnectorIsMissed() returns (buf: Text, q: nat)
    ensures buf == InARow(Filler(11), CONNECTORS[3], CONNECTORS[7])
    ensures Eligible(buf, DEFAULT.minWords, DEFAULT.connectors, q)
    ensures FeedPlan(DEFAULT, START, buf) == Fed([], Plan(buf, true))
  {
    ShippedAreDevanagari();
    assert CONNECTORS[3] in CONNECTORS && CONNECTORS[7] in CONNECTORS;
    var pre;
    pre, buf, q := ConnectorPairIsMissed(DEFAULT, CONNECTORS[3], CONNECTORS[7]);
  }
}
