/**
 The semantic chunk planner of the prosody layer: a streaming splitter that turns
 LLM tokens into breath groups.
 */
module ChunkPlanner {
  import opened Text
  import opened Words

  const CONNECTORS: seq<Text> := [
    [0x924, 0x94B],
    [0x932, 0x947, 0x915, 0x93F, 0x928],
    [0x92E, 0x924, 0x932, 0x92C],
    [0x914, 0x930],
    [0x915, 0x94D, 0x92F, 0x94B, 0x902, 0x915, 0x93F],
    [0x907, 0x938, 0x932, 0x93F, 0x90F],
    [0x92A, 0x930],
    [0x92B, 0x93F, 0x930]
  ]

  /** The word budgets and the clause connectors of a planner. */
  datatype Config = Config(minWords: nat, maxWords: nat, firstWords: nat, connectors: seq<Text>) {
    /** What the constructor checks before it accepts the budgets. */
    predicate Valid() {
      1 <= firstWords <= minWords <= maxWords
    }

    /** The least size of a chunk that the punctuation and connector rules emit. */
    function Floor(first: bool): nat {
      if first then firstWords else minWords
    }
  }

  const DEFAULT: Config := Config(12, 35, 5, CONNECTORS)

  /** `_CLAUSE_FINAL`, or `_SOFT_BOUNDARY` when `soft`. */
  predicate Mark(soft: bool, c: Code) {
    if soft then c in {0x2C, 0x60C, 0x3B, 0x3A, 0x2014, 0x2013}
    else c in {0x2E, 0x3F, 0x21, 0x964, 0x2026}
  }

  /** The planner between two calls. */
  datatype Plan = Plan(buf: Text, first: bool)

  const START: Plan := Plan([], true)

  // ---------------------------------------------------------------- the four cut rules

  /** A boundary mark ends at `end`, on a word edge, with enough words before it. */
  predicate IsBoundary(buf: Text, soft: bool, minWords: nat, end: nat) {
    && 1 <= end <= |buf|
    && Mark(soft, buf[end - 1])
    && (end == |buf| || IsSpace(buf[end]))
    && WordCount(buf[..end]) >= minWords
  }

  function ScanBoundary(buf: Text, soft: bool, minWords: nat, end: nat): (r: Option<nat>)
    ensures r.Some? ==> IsBoundary(buf, soft, minWords, r.value) && end <= r.value
    ensures r.Some? ==> forall e :: end <= e < r.value ==> !IsBoundary(buf, soft, minWords, e)
    ensures r.None? ==> forall e :: end <= e ==> !IsBoundary(buf, soft, minWords, e)
    decreases |buf| - end
  {
    if end > |buf| then None
    else if IsBoundary(buf, soft, minWords, end) then Some(end)
    else ScanBoundary(buf, soft, minWords, end + 1)
  }

  /** The first clause-final boundary; failing that, if `includeSoft`, the first soft one. */
  function BoundaryCut(buf: Text, includeSoft: bool, minWords: nat): (r: Option<nat>)
    ensures r.Some? ==>
              || IsBoundary(buf, false, minWords, r.value)
              || (includeSoft && IsBoundary(buf, true, minWords, r.value))
    ensures r.None? ==> forall e :: !IsBoundary(buf, false, minWords, e)
    ensures r.None? && includeSoft ==> forall e :: !IsBoundary(buf, true, minWords, e)
  {
    var hard := ScanBoundary(buf, false, minWords, 0);
    if hard.Some? || !includeSoft then hard else ScanBoundary(buf, true, minWords, 0)
  }

  /** End of the match of a connector and the white space after it, if one stands at `p`. */
  function ConnectorEnd(buf: Text, p: nat, connectors: seq<Text>): (r: Option<nat>)
    ensures r.Some? ==> p < r.value <= |buf|
  {
    if connectors == [] then None else
    var c := connectors[0];
    if p + |c| < |buf| && buf[p..p + |c|] == c && IsSpace(buf[p + |c|]) then Some(p + |c| + 1)
    else ConnectorEnd(buf, p, connectors[1..])
  }

  /** A match of `_CONNECTOR_RE` that starts at `p`: at the start of the text, or on white space. */
  function MatchEnd(buf: Text, p: nat, connectors: seq<Text>): (r: Option<nat>)
    requires p < |buf|
    ensures r.Some? ==> p < r.value <= |buf|
    ensures r.Some? ==> p == 0 || IsSpace(buf[p])
  {
    if p == 0 && ConnectorEnd(buf, 0, connectors).Some? then ConnectorEnd(buf, 0, connectors)
    else if IsSpace(buf[p]) then ConnectorEnd(buf, p + 1, connectors)
    else None
  }

  /** The first position at or after `p` that does not hold white space. */
  function SkipSpaces(buf: Text, p: nat): (r: nat)
    requires p <= |buf|
    ensures p <= r <= |buf| && (r < |buf| ==> !IsSpace(buf[r]))
    ensures forall i :: p <= i < r ==> IsSpace(buf[i])
    decreases |buf| - p
  {
    if p < |buf| && IsSpace(buf[p]) then SkipSpaces(buf, p + 1) else p
  }

  /** The first non-overlapping connector match, from `p` on, with enough words before it. */
  function ScanConnector(buf: Text, minWords: nat, connectors: seq<Text>, p: nat): (r: Option<nat>)
    ensures r.Some? ==> 0 < r.value <= |buf| && IsSpace(buf[r.value - 1])
    ensures r.Some? ==> WordCount(buf[..r.value]) >= minWords
    decreases |buf| - p
  {
    if p >= |buf| then None else
    var m := MatchEnd(buf, p, connectors);
    if m.None? then ScanConnector(buf, minWords, connectors, p + 1) else
    var start := SkipSpaces(buf, p);
    if start > 0 && WordCount(buf[..start]) >= minWords then Some(start)
    else ScanConnector(buf, minWords, connectors, m.value)
  }

  /** Where the run of word characters that starts at `idx` ends. */
  function RunEnd(buf: Text, idx: nat): (e: nat)
    requires idx <= |buf|
    ensures idx <= e <= |buf| && (e < |buf| ==> IsSpace(buf[e]))
    ensures forall i :: idx <= i < e ==> !IsSpace(buf[i])
    decreases |buf| - idx
  {
    if idx < |buf| && !IsSpace(buf[idx]) then RunEnd(buf, idx + 1) else idx
  }

  /** Where the `n`-th word from `idx` on ends; the end of the buffer if there are fewer. */
  function WordEnd(buf: Text, idx: nat, n: nat): (r: nat)
    requires idx <= |buf|
    ensures idx <= r <= |buf| && (r < |buf| ==> IsSpace(buf[r]))
    decreases |buf| - idx
  {
    if idx == |buf| then idx
    else if IsSpace(buf[idx]) then WordEnd(buf, idx + 1, n)
    else if n <= 1 then RunEnd(buf, idx)
    else WordEnd(buf, RunEnd(buf, idx), n - 1)
  }

  /** The rule at the ceiling: any boundary, else the end of word number `maxWords`. */
  function MaxWordCut(buf: Text, maxWords: nat): (r: Option<nat>)
    requires maxWords >= 1
  {
    var cut := BoundaryCut(buf, true, 1);
    if cut.Some? then cut
    else if WordCount(buf) <= maxWords then None
    else Some(WordEnd(buf, 0, maxWords))
  }

  /** Where `_try_emit` cuts the buffer, if it does. */
  function ChooseCut(cfg: Config, st: Plan): Option<nat>
    requires cfg.Valid()
  {
    var buf, wc := st.buf, WordCount(st.buf);
    if wc == 0 then None
    else if wc >= cfg.maxWords && MaxWordCut(buf, cfg.maxWords).Some? then
      MaxWordCut(buf, cfg.maxWords)
    else if st.first && wc >= cfg.firstWords && BoundaryCut(buf, true, cfg.firstWords).Some? then
      BoundaryCut(buf, true, cfg.firstWords)
    else if wc >= cfg.minWords && BoundaryCut(buf, false, cfg.minWords).Some? then
      BoundaryCut(buf, false, cfg.minWords)
    else if wc >= cfg.minWords then ScanConnector(buf, cfg.minWords, cfg.connectors, 0)
    else None
  }

  /** `c` is the first clause-final boundary, or, only if there is none at all and soft ones count, the first soft one. */
  predicate Preferred(buf: Text, includeSoft: bool, minWords: nat, c: nat) {
    || (IsBoundary(buf, false, minWords, c) && NoneBefore(buf, false, minWords, c))
    || (includeSoft && NoneBefore(buf, false, minWords, |buf| + 1)
        && IsBoundary(buf, true, minWords, c) && NoneBefore(buf, true, minWords, c))
  }

  predicate NoneBefore(buf: Text, soft: bool, minWords: nat, end: nat) {
    forall e :: 0 <= e < end ==> !IsBoundary(buf, soft, minWords, e)
  }

  lemma BoundaryCutIs(buf: Text, includeSoft: bool, minWords: nat)
    ensures var r := BoundaryCut(buf, includeSoft, minWords);
            if r.Some? then Preferred(buf, includeSoft, minWords, r.value)
            else NoneBefore(buf, false, minWords, |buf| + 1) && (includeSoft ==> NoneBefore(buf, true, minWords, |buf| + 1))
  {
  }

  /** Some boundary qualifies. */
  predicate HasBoundary(buf: Text, includeSoft: bool, minWords: nat) {
    !NoneBefore(buf, false, minWords, |buf| + 1) || (includeSoft && !NoneBefore(buf, true, minWords, |buf| + 1))
  }

  /** Exactly one boundary is preferred, if any qualifies. */
  lemma PreferredIsCut(buf: Text, includeSoft: bool, minWords: nat)
    ensures BoundaryCut(buf, includeSoft, minWords).Some? <==> HasBoundary(buf, includeSoft, minWords)
    ensures BoundaryCut(buf, includeSoft, minWords).Some? ==>
              Preferred(buf, includeSoft, minWords, BoundaryCut(buf, includeSoft, minWords).value)
  {
    BoundaryCutIs(buf, includeSoft, minWords);
    var r := BoundaryCut(buf, includeSoft, minWords);
    if r.Some? {
      assert IsBoundary(buf, false, minWords, r.value) || IsBoundary(buf, true, minWords, r.value);
    }
  }

  /**
   The order of the rules, in terms of boundaries: at the ceiling any boundary, else the end of
   word number `maxWords` once the ceiling is exceeded; while the first chunk is pending any
   boundary past the first budget; then a clause-final one past the minimum; then a connector.
   */
  lemma CutIs(cfg: Config, st: Plan)
    requires cfg.Valid()
    ensures var cut, wc := ChooseCut(cfg, st), WordCount(st.buf);
            if wc == 0 then cut.None?
            else if wc >= cfg.maxWords && HasBoundary(st.buf, true, 1) then
              cut.Some? && Preferred(st.buf, true, 1, cut.value)
            else if wc > cfg.maxWords then cut == Some(WordEnd(st.buf, 0, cfg.maxWords))
            else if st.first && wc >= cfg.firstWords && HasBoundary(st.buf, true, cfg.firstWords) then
              cut.Some? && Preferred(st.buf, true, cfg.firstWords, cut.value)
            else if wc >= cfg.minWords && HasBoundary(st.buf, false, cfg.minWords) then
              cut.Some? && Preferred(st.buf, false, cfg.minWords, cut.value)
            else if wc >= cfg.minWords then cut == ScanConnector(st.buf, cfg.minWords, cfg.connectors, 0)
            else cut.None?
  {
    PreferredIsCut(st.buf, true, 1);
    PreferredIsCut(st.buf, true, cfg.firstWords);
    PreferredIsCut(st.buf, false, cfg.minWords);
  }

  // ---------------------------------------------------------------- one cut

  predicate SafeCut(buf: Text, cut: nat) {
    0 < cut <= |buf| && WordEdge(buf[..cut], buf[cut..])
  }

  lemma BoundaryIsSafe(buf: Text, soft: bool, minWords: nat, end: nat)
    requires IsBoundary(buf, soft, minWords, end)
    ensures SafeCut(buf, end)
  {
    assert end < |buf| ==> buf[end..][0] == buf[end];
  }

  lemma SpaceAt(buf: Text, idx: nat, r: nat)
    requires idx < r <= |buf| && IsSpace(buf[idx])
    ensures WordCount(buf[idx..r]) == WordCount(buf[idx + 1..r])
  {
    var s := buf[idx..r];
    SplitSkips(s);
    assert s[1..] == buf[idx + 1..r];
  }

  lemma WordAt(buf: Text, idx: nat, r: nat)
    requires idx < r <= |buf| && !IsSpace(buf[idx]) && RunEnd(buf, idx) <= r
    ensures WordCount(buf[idx..r]) == 1 + WordCount(buf[RunEnd(buf, idx)..r])
  {
    var e := RunEnd(buf, idx);
    var w, more := buf[idx..e], buf[e..r];
    assert buf[idx..r] == w + more;
    SplitRun(w, more);
  }

  /** Exactly `n` words stand before the end of word number `n`. */
  lemma {:induction false} WordEndCounts(buf: Text, idx: nat, n: nat)
    requires idx <= |buf| && 1 <= n <= WordCount(buf[idx..|buf|])
    ensures idx < WordEnd(buf, idx, n)
    ensures WordCount(buf[idx..WordEnd(buf, idx, n)]) == n
    decreases |buf| - idx
  {
    var r := WordEnd(buf, idx, n);
    if IsSpace(buf[idx]) {
      SpaceAt(buf, idx, |buf|);
      WordEndCounts(buf, idx + 1, n);
      SpaceAt(buf, idx, r);
    } else {
      var e := RunEnd(buf, idx);
      WordAt(buf, idx, |buf|);
      if n > 1 {
        WordEndCounts(buf, e, n - 1);
      }
      WordAt(buf, idx, r);
    }
  }

  lemma WordEndIsSafe(buf: Text, n: nat)
    requires 1 <= n <= WordCount(buf)
    ensures SafeCut(buf, WordEnd(buf, 0, n)) && WordCount(buf[..WordEnd(buf, 0, n)]) == n
  {
    assert buf[0..|buf|] == buf;
    WordEndCounts(buf, 0, n);
    var r := WordEnd(buf, 0, n);
    assert r < |buf| ==> buf[r..][0] == buf[r];
    assert buf[0..r] == buf[..r];
  }

  /**
   Every cut is safe and leaves a word before it; a chunk under its floor is cut only
   from a buffer that holds the maximum number of words.
   */
  lemma CutIsSafe(cfg: Config, st: Plan)
    requires cfg.Valid() && ChooseCut(cfg, st).Some?
    ensures var cut := ChooseCut(cfg, st).value;
            && SafeCut(st.buf, cut)
            && WordCount(st.buf[..cut]) >= 1
            && (WordCount(st.buf[..cut]) >= cfg.Floor(st.first) || WordCount(st.buf) >= cfg.maxWords)
  {
    var cut := ChooseCut(cfg, st).value;
    forall soft, m | IsBoundary(st.buf, soft, m, cut)
      ensures SafeCut(st.buf, cut) && WordCount(st.buf[..cut]) >= m
    {
      BoundaryIsSafe(st.buf, soft, m, cut);
    }
    if WordCount(st.buf) > cfg.maxWords {
      WordEndIsSafe(st.buf, cfg.maxWords);
    }
  }

  lemma ScanUnfolds(buf: Text, minWords: nat, connectors: seq<Text>, p: nat)
    requires p < |buf|
    ensures var m, start := MatchEnd(buf, p, connectors), SkipSpaces(buf, p);
            ScanConnector(buf, minWords, connectors, p)
            == if m.None? then ScanConnector(buf, minWords, connectors, p + 1)
               else if start > 0 && WordCount(buf[..start]) >= minWords then Some(start)
               else ScanConnector(buf, minWords, connectors, m.value)
  {
  }

  /** `_split_at`: the chunk, and what stays in the buffer. */
  function Chunk(buf: Text, cut: nat): Text
    requires cut <= |buf|
  {
    Strip(buf[..cut])
  }

  function Rest(buf: Text, cut: nat): (r: Text)
    requires cut <= |buf|
    ensures |r| <= |buf| - cut
  {
    LStrip(buf[cut..])
  }

  /** A chunk has no white space around it, and the buffer goes on with a word. */
  lemma CutTrims(buf: Text, cut: nat)
    requires cut <= |buf|
    ensures var c := Chunk(buf, cut); c != [] ==> !IsSpace(c[0]) && !IsSpace(c[|c| - 1])
    ensures var r := Rest(buf, cut); r != [] ==> !IsSpace(r[0])
  {
    var inner := LStrip(buf[..cut]);
    assert TrimmedLength(inner) > 0 ==> RStrip(inner)[0] == inner[0];
  }

  /** No cut lands inside a word, and no cut loses or reorders a visible character. */
  lemma CutConserves(buf: Text, cut: nat)
    requires SafeCut(buf, cut)
    ensures Split(buf) == Split(Chunk(buf, cut)) + Split(Rest(buf, cut))
    ensures NonSpace(buf) == NonSpace(Chunk(buf, cut)) + NonSpace(Rest(buf, cut))
    ensures WordCount(Chunk(buf, cut)) == WordCount(buf[..cut])
  {
    assert buf == buf[..cut] + buf[cut..];
    SplitConcat(buf[..cut], buf[cut..]);
    NonSpaceConcat(buf[..cut], buf[cut..]);
    StripKeeps(buf[..cut]);
    LStripKeeps(buf[cut..]);
  }

  // ---------------------------------------------------------------- feeding

  datatype Fed = Fed(chunks: seq<Text>, plan: Plan)

  /** The emit loop of `feed` on a buffer that already holds the token. */
  function Drain(cfg: Config, st: Plan): Fed
    requires cfg.Valid()
    decreases |st.buf|
  {
    var c := ChooseCut(cfg, st);
    if c.None? then Fed([], st) else
    CutIsSafe(cfg, st);
    var more := Drain(cfg, Plan(Rest(st.buf, c.value), false));
    Fed([Chunk(st.buf, c.value)] + more.chunks, more.plan)
  }

  function FeedPlan(cfg: Config, st: Plan, token: Text): Fed
    requires cfg.Valid()
  {
    Drain(cfg, st.(buf := st.buf + token))
  }

  /** All the words of a list of chunks. */
  function ChunkWords(chunks: seq<Text>): seq<Text> {
    if chunks == [] then [] else Split(chunks[0]) + ChunkWords(chunks[1..])
  }

  lemma {:induction false} ChunkWordsAppend(xs: seq<Text>, ys: seq<Text>)
    ensures ChunkWords(xs + ys) == ChunkWords(xs) + ChunkWords(ys)
  {
    if xs == [] {
      assert xs + ys == ys;
    } else {
      ChunkWordsAppend(xs[1..], ys);
      assert (xs + ys)[1..] == xs[1..] + ys;
      Assoc(Split(xs[0]), ChunkWords(xs[1..]), ChunkWords(ys));
    }
  }

  /** Within one buffer nothing is lost: not a word, not a visible character. */
  lemma {:induction false} DrainConserves(cfg: Config, st: Plan)
    requires cfg.Valid()
    ensures var d := Drain(cfg, st);
            && Split(st.buf) == ChunkWords(d.chunks) + Split(d.plan.buf)
            && NonSpace(st.buf) == NonSpace(Concat(d.chunks)) + NonSpace(d.plan.buf)
    decreases |st.buf|
  {
    var c := ChooseCut(cfg, st);
    if c.Some? {
      CutIsSafe(cfg, st);
      CutConserves(st.buf, c.value);
      var chunk, next := Chunk(st.buf, c.value), Plan(Rest(st.buf, c.value), false);
      DrainConserves(cfg, next);
      var more := Drain(cfg, next);
      NonSpaceConcat(chunk, Concat(more.chunks));
      Assoc(Split(chunk), ChunkWords(more.chunks), Split(more.plan.buf));
      Assoc(NonSpace(chunk), NonSpace(Concat(more.chunks)), NonSpace(more.plan.buf));
    }
  }

  /** The smallest size that chunk number `i` of a feed may have. */
  function ChunkFloor(cfg: Config, first: bool, i: nat): nat {
    cfg.Floor(first && i == 0)
  }

  /**
   Chunk number `i` of a drain has a word and no more than the buffer had; if it is below its
   floor, the words from it on filled the ceiling when it was cut.
   */
  predicate FitsBudget(cfg: Config, st: Plan, d: Fed, i: nat)
    requires i < |d.chunks|
  {
    && 1 <= WordCount(d.chunks[i]) <= WordCount(st.buf)
    && (|| WordCount(d.chunks[i]) >= ChunkFloor(cfg, st.first, i)
        || |ChunkWords(d.chunks[i..])| + WordCount(d.plan.buf) >= cfg.maxWords)
  }

  lemma LaterFits(cfg: Config, st: Plan, next: Plan, d: Fed, more: Fed, i: nat)
    requires d.chunks != [] && d.chunks[1..] == more.chunks && d.plan == more.plan
    requires !next.first && WordCount(next.buf) <= WordCount(st.buf)
    requires 0 < i < |d.chunks| && FitsBudget(cfg, next, more, i - 1)
    ensures FitsBudget(cfg, st, d, i)
  {
    assert d.chunks[i] == more.chunks[i - 1] && d.chunks[i..] == more.chunks[i - 1..];
  }

  /** Sizes: every chunk fits its budget, and at most `maxWords` words stay buffered. */
  lemma {:induction false} DrainSizes(cfg: Config, st: Plan)
    requires cfg.Valid()
    ensures var d := Drain(cfg, st);
            && WordCount(d.plan.buf) <= cfg.maxWords
            && (d.chunks != [] ==> !d.plan.first)
            && (forall i :: 0 <= i < |d.chunks| ==> FitsBudget(cfg, st, d, i))
    decreases |st.buf|
  {
    var c := ChooseCut(cfg, st);
    if c.Some? {
      CutIsSafe(cfg, st);
      CutConserves(st.buf, c.value);
      var next := Plan(Rest(st.buf, c.value), false);
      DrainSizes(cfg, next);
      var d, more := Drain(cfg, st), Drain(cfg, next);
      DrainConserves(cfg, st);
      assert d.chunks[1..] == more.chunks && d.chunks[0..] == d.chunks;
      forall i | 0 < i < |d.chunks|
        ensures FitsBudget(cfg, st, d, i)
      {
        LaterFits(cfg, st, next, d, more, i);
      }
    } else {
      CeilingForcesCut(cfg, st);
    }
  }

  lemma CeilingForcesCut(cfg: Config, st: Plan)
    requires cfg.Valid()
    ensures WordCount(st.buf) > cfg.maxWords ==> ChooseCut(cfg, st).Some?
  {
  }

  /**
   Promptness: what a feed leaves in the buffer offers no cut.  There is no clause-final
   boundary past the minimum, while the first chunk is pending none of either kind past the
   first budget, and at the ceiling none at all; and past the minimum no connector is found.
   */
  lemma {:induction false} DrainIsPrompt(cfg: Config, st: Plan)
    requires cfg.Valid()
    ensures var left := Drain(cfg, st).plan;
            && (forall e :: !IsBoundary(left.buf, false, cfg.minWords, e))
            && (left.first ==> forall soft, e :: !IsBoundary(left.buf, soft, cfg.firstWords, e))
            && (WordCount(left.buf) >= cfg.maxWords ==>
                  forall soft, e :: !IsBoundary(left.buf, soft, 1, e))
            && (WordCount(left.buf) >= cfg.minWords ==>
                  ScanConnector(left.buf, cfg.minWords, cfg.connectors, 0).None?)
    decreases |st.buf|
  {
    var c := ChooseCut(cfg, st);
    if c.Some? {
      CutIsSafe(cfg, st);
      DrainIsPrompt(cfg, Plan(Rest(st.buf, c.value), false));
    } else {
      forall soft, m, e | IsBoundary(st.buf, soft, m, e)
        ensures WordCount(st.buf) >= m
      {
        PrefixWordCount(st.buf, e);
      }
    }
  }

  // ---------------------------------------------------------------- whole streams

  /** Feeding the tokens one after the other. */
  function FeedAll(cfg: Config, st: Plan, tokens: seq<Text>): Fed
    requires cfg.Valid()
    decreases |tokens|
  {
    if tokens == [] then Fed([], st) else
    var now := FeedPlan(cfg, st, tokens[0]);
    var later := FeedAll(cfg, now.plan, tokens[1..]);
    Fed(now.chunks + later.chunks, later.plan)
  }

  /** The chunks of a whole turn, the flushed rest last. */
  function Spoken(cfg: Config, st: Plan, tokens: seq<Text>): seq<Text>
    requires cfg.Valid()
  {
    var fed := FeedAll(cfg, st, tokens);
    fed.chunks + [Strip(fed.plan.buf)]
  }

  lemma FlushOnly(cfg: Config, st: Plan)
    requires cfg.Valid()
    ensures Spoken(cfg, st, []) == [Strip(st.buf)]
    ensures Concat(Spoken(cfg, st, [])) == Strip(st.buf)
    ensures ChunkWords(Spoken(cfg, st, [])) == Split(st.buf)
  {
    var flushed := [Strip(st.buf)];
    assert [] + flushed == flushed;
    assert Concat(flushed) == Strip(st.buf) + [];
    assert ChunkWords(flushed) == Split(Strip(st.buf)) + [];
    StripKeeps(st.buf);
  }

  lemma SpokenStep(cfg: Config, st: Plan, tokens: seq<Text>)
    requires cfg.Valid() && tokens != []
    ensures var now := FeedPlan(cfg, st, tokens[0]);
            Spoken(cfg, st, tokens) == now.chunks + Spoken(cfg, now.plan, tokens[1..])
  {
    var now := FeedPlan(cfg, st, tokens[0]);
    var later := FeedAll(cfg, now.plan, tokens[1..]);
    Assoc(now.chunks, later.chunks, [Strip(later.plan.buf)]);
  }

  /** For every token sequence, exactly the visible characters fed in are spoken, in order. */
  lemma {:induction false} StreamConserves(cfg: Config, st: Plan, tokens: seq<Text>)
    requires cfg.Valid()
    ensures NonSpace(Concat(Spoken(cfg, st, tokens))) == NonSpace(st.buf + Concat(tokens))
    decreases |tokens|
  {
    if tokens == [] {
      StripKeeps(st.buf);
      FlushOnly(cfg, st);
      assert st.buf + Concat(tokens) == st.buf;
    } else {
      var now := FeedPlan(cfg, st, tokens[0]);
      var rest := Spoken(cfg, now.plan, tokens[1..]);
      StreamConserves(cfg, now.plan, tokens[1..]);
      SpokenStep(cfg, st, tokens);
      ConcatAppend(now.chunks, rest);
      NonSpaceConcat(Concat(now.chunks), Concat(rest));
      DrainConserves(cfg, st.(buf := st.buf + tokens[0]));
      Assoc(NonSpace(Concat(now.chunks)), NonSpace(now.plan.buf), NonSpace(Concat(tokens[1..])));
      NonSpaceConcat(now.plan.buf, Concat(tokens[1..]));
      Assoc(st.buf, tokens[0], Concat(tokens[1..]));
      NonSpaceConcat(st.buf + tokens[0], Concat(tokens[1..]));
    }
  }

  /** Between two feeds at most `maxWords` words wait, so a chunk has at most the token's words more. */
  lemma FeedSizes(cfg: Config, st: Plan, token: Text)
    requires cfg.Valid() && WordCount(st.buf) <= cfg.maxWords
    ensures var d := FeedPlan(cfg, st, token);
            && WordCount(d.plan.buf) <= cfg.maxWords
            && (forall i :: 0 <= i < |d.chunks| ==>
                  1 <= WordCount(d.chunks[i]) <= cfg.maxWords + WordCount(token))
  {
    DrainSizes(cfg, st.(buf := st.buf + token));
    WordCountBounds(st.buf, token);
    var d := FeedPlan(cfg, st, token);
    forall i | 0 <= i < |d.chunks| ensures 1 <= WordCount(d.chunks[i]) <= cfg.maxWords + WordCount(token) {
      assert FitsBudget(cfg, st.(buf := st.buf + token), d, i);
    }
  }

  // ---------------------------------------------------------------- the ceiling

  /** A chunk exceeds the ceiling exactly when the preferred boundary lies beyond it. */
  lemma OverCeilingIff(cfg: Config, st: Plan)
    requires cfg.Valid() && ChooseCut(cfg, st).Some?
    ensures var bound := BoundaryCut(st.buf, true, 1);
            WordCount(st.buf[..ChooseCut(cfg, st).value]) > cfg.maxWords
            <==> bound.Some? && WordCount(st.buf[..bound.value]) > cfg.maxWords
  {
    var bound := BoundaryCut(st.buf, true, 1);
    CutIsSafe(cfg, st);
    PrefixWordCount(st.buf, ChooseCut(cfg, st).value);
    if bound.Some? {
      PrefixWordCount(st.buf, bound.value);
    } else if WordCount(st.buf) > cfg.maxWords {
      WordEndIsSafe(st.buf, cfg.maxWords);
    }
  }

  lemma PrefixWordCount(buf: Text, n: nat)
    requires n <= |buf|
    ensures WordCount(buf[..n]) <= WordCount(buf)
  {
    assert buf == buf[..n] + buf[n..];
    WordCountBounds(buf[..n], buf[n..]);
  }

  // ---------------------------------------------------------------- the code

  /** The result of a drain that has emitted `out` and goes on from `st`. */
  ghost function Resume(cfg: Config, out: seq<Text>, st: Plan): Fed
    requires cfg.Valid()
  {
    var rest := Drain(cfg, st);
    Fed(out + rest.chunks, rest.plan)
  }

  lemma ResumeStep(cfg: Config, out: seq<Text>, st: Plan)
    requires cfg.Valid()
    ensures var c := ChooseCut(cfg, st);
            if c.None? then Resume(cfg, out, st) == Fed(out, st)
            else && c.value <= |st.buf|
                 && Resume(cfg, out, st)
                    == Resume(cfg, out + [Chunk(st.buf, c.value)], Plan(Rest(st.buf, c.value), false))
  {
    var c := ChooseCut(cfg, st);
    if c.None? {
      assert out + [] == out;
    } else {
      CutIsSafe(cfg, st);
      var more := Drain(cfg, Plan(Rest(st.buf, c.value), false));
      Assoc(out, [Chunk(st.buf, c.value)], more.chunks);
    }
  }

  /** `SemanticChunkPlanner`: the buffer and the first-chunk flag, updated in place. */
  class SemanticChunkPlanner {
    const cfg: Config
    var buf: Text
    var firstChunkPending: bool

    ghost predicate Valid()
      reads this
    {
      cfg.Valid() && WordCount(buf) <= cfg.maxWords
    }

    ghost function View(): Plan
      reads this
    {
      Plan(buf, firstChunkPending)
    }

    constructor (cfg: Config)
      requires cfg.Valid()
      ensures Valid() && this.cfg == cfg && View() == START
    {
      this.cfg := cfg;
      buf, firstChunkPending := [], true;
    }

    /** The checks of `__init__`: no planner for budgets out of order. */
    static method Create(cfg: Config) returns (r: Option<SemanticChunkPlanner>)
      ensures r.Some? <==> 1 <= cfg.firstWords <= cfg.minWords <= cfg.maxWords
      ensures r.Some? ==> fresh(r.value) && r.value.Valid() && r.value.cfg == cfg && r.value.View() == START
    {
      if cfg.firstWords < 1 || cfg.minWords < cfg.firstWords || cfg.maxWords < cfg.minWords {
        return None;
      }
      var p := new SemanticChunkPlanner(cfg);
      r := Some(p);
    }

    method Reset()
      requires Valid()
      modifies this
      ensures Valid() && View() == START
    {
      buf, firstChunkPending := [], true;
    }

    /** `feed`: terminates, emits only nonempty chunks, and leaves at most `maxWords` words. */
    method Feed(token: Text) returns (out: seq<Text>)
      requires Valid()
      modifies this
      ensures Valid()
      ensures Fed(out, View()) == FeedPlan(cfg, old(View()), token)
      ensures forall i :: 0 <= i < |out| ==> 1 <= WordCount(out[i]) <= cfg.maxWords + WordCount(token)
    {
      FeedSizes(cfg, View(), token);
      if token != [] {
        buf := buf + token;
      }
      assert View() == old(View()).(buf := old(buf) + token);
      ghost var whole := Drain(cfg, View());
      out := [];
      while true
        invariant cfg.Valid()
        invariant Resume(cfg, out, View()) == whole
        decreases |buf|
      {
        ResumeStep(cfg, out, View());
        var chunk := TryEmit();
        if chunk.None? {
          break;
        }
        out := out + [chunk.value];
      }
    }

    /** `flush`: the trimmed rest, and an empty buffer. */
    method Flush() returns (rest: Text)
      requires Valid()
      modifies this
      ensures Valid() && View() == Plan([], false)
      ensures rest == Strip(old(buf)) && Split(rest) == Split(old(buf))
    {
      StripKeeps(buf);
      rest := Strip(buf);
      buf, firstChunkPending := [], false;
    }

    method SplitAt(cut: nat) returns (chunk: Text)
      requires cut <= |buf|
      modifies this
      ensures chunk == Chunk(old(buf), cut) && buf == Rest(old(buf), cut)
      ensures firstChunkPending == (old(firstChunkPending) && chunk == [])
    {
      chunk := Strip(buf[..cut]);
      buf := LStrip(buf[cut..]);
      if chunk != [] {
        firstChunkPending := false;
      }
    }

    method TryEmit() returns (r: Option<Text>)
      requires cfg.Valid()
      modifies this
      ensures var c := ChooseCut(cfg, old(View()));
              if c.None? then r.None? && View() == old(View())
              else && c.value <= |old(buf)|
                   && r == Some(Chunk(old(buf), c.value))
                   && View() == Plan(Rest(old(buf), c.value), false)
                   && |buf| < |old(buf)|
    {
      var cut := SelectCut();
      if cut.None? {
        return None;
      }
      CutIsSafe(cfg, View());
      StripKeeps(buf[..cut.value]);
      var chunk := SplitAt(cut.value);
      r := Some(chunk);
    }

    /** The rules of `_try_emit`, in their order. */
    method SelectCut() returns (cut: Option<nat>)
      requires cfg.Valid()
      ensures cut == ChooseCut(cfg, View())
    {
      cut := None;
      StripKeeps(buf);
      if Strip(buf) == [] {
        return;
      }
      var wc := WordCount(buf);
      if wc >= cfg.maxWords {
        cut := FindMaxWordCut();
        if cut.Some? { return; }
      }
      if firstChunkPending && wc >= cfg.firstWords {
        cut := FindBoundaryCut(true, cfg.firstWords);
        if cut.Some? { return; }
      }
      if wc >= cfg.minWords {
        cut := FindBoundaryCut(false, cfg.minWords);
        if cut.Some? { return; }
        cut := FindConnectorCut();
      }
    }

    /** `_boundary_cut`: the clause-final marks in order, then the soft ones. */
    method FindBoundaryCut(includeSoft: bool, minWords: nat) returns (r: Option<nat>)
      ensures r == BoundaryCut(buf, includeSoft, minWords)
    {
      var soft := false;
      while true
        invariant soft ==> includeSoft && ScanBoundary(buf, false, minWords, 0).None?
        decreases !soft
      {
        var end := 0;
        while end <= |buf|
          invariant 0 <= end <= |buf| + 1
          invariant ScanBoundary(buf, soft, minWords, 0) == ScanBoundary(buf, soft, minWords, end)
        {
          if IsBoundary(buf, soft, minWords, end) {
            return Some(end);
          }
          end := end + 1;
        }
        if soft || !includeSoft {
          return None;
        }
        soft := true;
      }
    }

    /** `_connector_cut`: the non-overlapping matches from left to right. */
    method FindConnectorCut() returns (r: Option<nat>)
      ensures r == ScanConnector(buf, cfg.minWords, cfg.connectors, 0)
    {
      var p := 0;
      while p < |buf|
        invariant ScanConnector(buf, cfg.minWords, cfg.connectors, 0) == ScanConnector(buf, cfg.minWords, cfg.connectors, p)
        decreases |buf| - p
      {
        r, p := TryConnectorAt(p);
        if r.Some? {
          return;
        }
      }
      return None;
    }

    /** One turn of the loop: a match that is taken, or the position after it. */
    method TryConnectorAt(p: nat) returns (r: Option<nat>, next: nat)
      requires p < |buf|
      ensures p < next
      ensures ScanConnector(buf, cfg.minWords, cfg.connectors, p)
              == if r.Some? then r else ScanConnector(buf, cfg.minWords, cfg.connectors, next)
    {
      ScanUnfolds(buf, cfg.minWords, cfg.connectors, p);
      var m := MatchEnd(buf, p, cfg.connectors);
      if m.None? {
        return None, p + 1;
      }
      var start := SkipSpaces(buf, p);
      if start > 0 && WordCount(buf[..start]) >= cfg.minWords {
        return Some(start), m.value;
      }
      return None, m.value;
    }

    /** `_max_word_cut`: a boundary of any size, else the end of word number `maxWords`. */
    method FindMaxWordCut() returns (r: Option<nat>)
      requires cfg.Valid()
      ensures r == MaxWordCut(buf, cfg.maxWords)
    {
      r := FindBoundaryCut(true, 1);
      if r.Some? || WordCount(buf) <= cfg.maxWords {
        return;
      }
      var idx, count := 0, 0;
      while idx < |buf|
        invariant 0 <= idx <= |buf| && 0 <= count < cfg.maxWords
        invariant WordEnd(buf, 0, cfg.maxWords) == WordEnd(buf, idx, cfg.maxWords - count)
        decreases |buf| - idx
      {
        if IsSpace(buf[idx]) {
          idx := idx + 1;
          continue;
        }
        count := count + 1;
        idx := RunEnd(buf, idx);
        if count >= cfg.maxWords {
          return Some(idx);
        }
      }
      return Some(idx);
    }
  }
}
