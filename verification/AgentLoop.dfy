/**
 The audio loop of the voice agent (`AgentLoop.run`): per 20 ms frame, barge-in detection
 while TTS is playing and utterance endpointing while listening.
 */
module AgentLoop {
  import opened Text

  /** The tunables of the loop.  `floor` is the echo floor after the half-duplex factor. */
  datatype Config = Config(
    deltaMode: bool, mult: real, margin: real, sustain: nat, alpha: real, seed: real,
    minSpeechChunks: nat, minPartialWords: nat, floor: real,
    semanticEndpoint: bool, shortLimit: nat, fullLimit: nat)
  {
    /** The "above echo" bar over a baseline. */
    function Bar(baseline: real): (bar: real)
      ensures bar >= baseline * mult && bar >= baseline + margin
      ensures bar == baseline * mult || bar == baseline + margin
    {
      var scaled, shifted := baseline * mult, baseline + margin;
      if scaled >= shifted then scaled else shifted
    }

    /** How many silent frames end an utterance, given how its live partial reads. */
    function Needed(partialComplete: bool): nat {
      if semanticEndpoint && partialComplete then shortLimit else fullLimit
    }

    /** The exponential moving average of the echo level. */
    function Smooth(baseline: real, energy: real): real {
      (1.0 - alpha) * baseline + alpha * energy
    }

    /** A smoothing factor in [0, 1] and a non-negative multiplier. */
    predicate Sane() {
      0.0 <= alpha <= 1.0 && mult >= 0.0
    }
  }

  const CHUNK_MS := 20

  const DEFAULT: Config :=
    Config(true, 2.0, 600.0, 18, 0.05, 300.0, 16, 2, 700.0, true, 300 / CHUNK_MS, 750 / CHUNK_MS)

  /**
   One inbound frame with what the environment decides about it: the VAD verdict, its
   energy, whether TTS is playing, whether the live partial reads as complete, and what the
   probe STT has heard by the end of the word gate's wait.
   */
  datatype Frame = Frame(
    id: nat, isSpeech: bool, energy: real, playing: bool,
    partialComplete: bool, hasPartial: bool, partialWords: nat)

  datatype Event =
    | BargeIn(byEnergy: bool)
    | Utterance(audio: seq<Frame>, silence: nat, speechChunks: nat, isBargeIn: bool)

  datatype State = State(
    speechStarted: bool, silence: nat, buffer: seq<Frame>, speechChunks: nat, nextIsBargeIn: bool,
    consec: nat, delta: nat, baseline: Option<real>)

  const START: State := State(false, 0, [], 0, false, 0, 0, None)

  datatype Outcome = Outcome(state: State, events: seq<Event>)

  // ---------------------------------------------------------------- one frame

  function Baseline(cfg: Config, st: State, f: Frame): real {
    match st.baseline
    case Some(b) => b
    case None => if f.energy >= cfg.seed then f.energy else cfg.seed
  }

  /** The frame counts as clearly louder than the echo. */
  predicate Above(cfg: Config, st: State, f: Frame) {
    cfg.deltaMode && f.energy >= cfg.Bar(Baseline(cfg, st, f))
  }

  /** The leaky counter and the adaptive baseline after a playback frame. */
  function Adapt(cfg: Config, st: State, f: Frame): State {
    var b := Baseline(cfg, st, f);
    if Above(cfg, st, f) then st.(baseline := Some(b), delta := st.delta + 1)
    else st.(baseline := Some(cfg.Smooth(b, f.energy)),
             delta := if st.delta > 0 then st.delta - 1 else 0)
  }

  /** `_do_bargein`: capture starts with the triggering frame. */
  function Interrupt(f: Frame): State {
    State(true, 0, [f], 1, true, 0, 0, None)
  }

  predicate Loud(cfg: Config, f: Frame) {
    f.isSpeech && f.energy >= cfg.floor
  }

  /** The word gate: enough loud frames and a real partial with enough words. */
  function WordGate(cfg: Config, st: State, f: Frame): Outcome {
    if !Loud(cfg, f) then
      Outcome(if f.isSpeech then st else st.(consec := 0), [])
    else if st.consec + 1 < cfg.minSpeechChunks then
      Outcome(st.(consec := st.consec + 1, buffer := st.buffer + [f]), [])
    else if f.hasPartial && f.partialWords >= cfg.minPartialWords then
      Outcome(Interrupt(f), [BargeIn(false)])
    else
      Outcome(st.(consec := cfg.minSpeechChunks / 2), [])
  }

  function Listen(cfg: Config, st: State, f: Frame): Outcome {
    var st := st.(consec := 0, baseline := None, delta := 0);
    if f.isSpeech then
      Outcome(st.(speechStarted := true, silence := 0, buffer := st.buffer + [f],
                  speechChunks := if st.speechStarted then st.speechChunks + 1 else 1), [])
    else if st.speechStarted then
      var silence := st.silence + 1;
      if silence >= cfg.Needed(f.partialComplete) then
        Outcome(START, [Utterance(st.buffer + [f], silence, st.speechChunks, st.nextIsBargeIn)])
      else
        Outcome(st.(silence := silence, buffer := st.buffer + [f]), [])
    else Outcome(st, [])
  }

  function Step(cfg: Config, st: State, f: Frame): Outcome {
    if !f.playing then Listen(cfg, st, f) else
    var adapted := Adapt(cfg, st, f);
    if cfg.deltaMode && adapted.delta >= cfg.sustain then Outcome(Interrupt(f), [BargeIn(true)])
    else WordGate(cfg, adapted, f)
  }

  /** The loop over a sequence of frames. */
  function Run(cfg: Config, st: State, frames: seq<Frame>): Outcome {
    if frames == [] then Outcome(st, []) else
    var before := Run(cfg, st, frames[..|frames| - 1]);
    var now := Step(cfg, before.state, frames[|frames| - 1]);
    Outcome(now.state, before.events + now.events)
  }

  lemma RunSnoc(cfg: Config, st: State, frames: seq<Frame>, f: Frame)
    ensures var before := Run(cfg, st, frames);
            var now := Step(cfg, before.state, f);
            Run(cfg, st, frames + [f]) == Outcome(now.state, before.events + now.events)
  {
    assert (frames + [f])[..|frames|] == frames;
  }

  lemma {:induction false} RunConcat(cfg: Config, st: State, a: seq<Frame>, b: seq<Frame>)
    ensures var first := Run(cfg, st, a);
            var second := Run(cfg, first.state, b);
            Run(cfg, st, a + b) == Outcome(second.state, first.events + second.events)
    decreases |b|
  {
    var first := Run(cfg, st, a);
    if b == [] {
      assert a + b == a && first.events + [] == first.events;
    } else {
      var front, f := b[..|b| - 1], b[|b| - 1];
      RunConcat(cfg, st, a, front);
      assert b == front + [f] && a + b == (a + front) + [f];
      RunSnoc(cfg, st, a + front, f);
      RunSnoc(cfg, first.state, front, f);
      var mid := Run(cfg, first.state, front);
      Assoc(first.events, mid.events, Step(cfg, mid.state, f).events);
    }
  }

  // ---------------------------------------------------------------- the code

  /** The variables of `run`, updated in place frame by frame. */
  class AudioLoop {
    const cfg: Config
    var speechStarted: bool
    var silence: nat
    var buffer: seq<Frame>
    var speechChunks: nat
    var nextIsBargeIn: bool
    var consec: nat
    var delta: nat
    var baseline: Option<real>
    var events: seq<Event>

    ghost function View(): State
      reads this
    {
      State(speechStarted, silence, buffer, speechChunks, nextIsBargeIn, consec, delta, baseline)
    }

    constructor (cfg: Config)
      ensures this.cfg == cfg && View() == START && events == []
    {
      this.cfg := cfg;
      speechStarted, silence, buffer, speechChunks, nextIsBargeIn := false, 0, [], 0, false;
      consec, delta, baseline, events := 0, 0, None, [];
    }

    method OnFrame(f: Frame)
      modifies this
      ensures View() == Step(cfg, old(View()), f).state
      ensures events == old(events) + Step(cfg, old(View()), f).events
    {
      if !f.playing {
        OnListening(f);
        return;
      }
      TrackEcho(f);
      if cfg.deltaMode && delta >= cfg.sustain {
        DoBargeIn(f, true);
      } else {
        CheckWords(f);
      }
    }

    /** The adaptive baseline and the leaky counter. */
    method TrackEcho(f: Frame)
      modifies this`baseline, this`delta
      ensures View() == Adapt(cfg, old(View()), f)
    {
      if baseline.None? {
        baseline := Some(if f.energy >= cfg.seed then f.energy else cfg.seed);
      }
      if cfg.deltaMode && f.energy >= cfg.Bar(baseline.value) {
        delta := delta + 1;
      } else {
        baseline := Some(cfg.Smooth(baseline.value, f.energy));
        if delta > 0 {
          delta := delta - 1;
        }
      }
    }

    method CheckWords(f: Frame)
      modifies this
      ensures View() == WordGate(cfg, old(View()), f).state
      ensures events == old(events) + WordGate(cfg, old(View()), f).events
    {
      if f.isSpeech && f.energy >= cfg.floor {
        consec := consec + 1;
        if consec < cfg.minSpeechChunks {
          buffer := buffer + [f];
        } else if f.hasPartial && f.partialWords >= cfg.minPartialWords {
          DoBargeIn(f, false);
        } else {
          consec := cfg.minSpeechChunks / 2;
        }
      } else if !f.isSpeech {
        consec := 0;
      }
    }

    method DoBargeIn(f: Frame, byEnergy: bool)
      modifies this
      ensures View() == Interrupt(f) && events == old(events) + [BargeIn(byEnergy)]
    {
      consec, delta, baseline := 0, 0, None;
      speechStarted, silence, speechChunks, buffer, nextIsBargeIn := true, 0, 1, [f], true;
      events := events + [BargeIn(byEnergy)];
    }

    method OnListening(f: Frame)
      modifies this
      ensures View() == Listen(cfg, old(View()), f).state
      ensures events == old(events) + Listen(cfg, old(View()), f).events
    {
      consec, delta, baseline := 0, 0, None;
      if f.isSpeech {
        if !speechStarted {
          speechChunks := 0;
        }
        speechStarted, silence, speechChunks, buffer := true, 0, speechChunks + 1, buffer + [f];
      } else if speechStarted {
        silence, buffer := silence + 1, buffer + [f];
        if silence >= cfg.Needed(f.partialComplete) {
          events := events + [Utterance(buffer, silence, speechChunks, nextIsBargeIn)];
          nextIsBargeIn, speechChunks, buffer, speechStarted, silence := false, 0, [], false, 0;
        }
      }
    }
  }

  /** `run` over all frames of a call. */
  method RunLoop(cfg: Config, frames: seq<Frame>) returns (events: seq<Event>)
    ensures events == Run(cfg, START, frames).events
  {
    var loop := new AudioLoop(cfg);
    for i := 0 to |frames|
      invariant fresh(loop) && loop.cfg == cfg
      invariant Outcome(loop.View(), loop.events) == Run(cfg, START, frames[..i])
    {
      assert frames[..i + 1] == frames[..i] + [frames[i]];
      RunSnoc(cfg, START, frames[..i], frames[i]);
      loop.OnFrame(frames[i]);
    }
    assert frames[..|frames|] == frames;
    events := loop.events;
  }

  // ---------------------------------------------------------------- arithmetic of the baseline

  lemma ProductNonNegative(x: real, y: real)
    requires x >= 0.0 && y >= 0.0
    ensures x * y >= 0.0
  {
  }

  lemma BarMonotone(cfg: Config, lo: real, b: real)
    requires cfg.Sane() && lo <= b
    ensures cfg.Bar(lo) <= cfg.Bar(b)
  {
    ProductNonNegative(b - lo, cfg.mult);
  }

  lemma SmoothingStaysAbove(alpha: real, b: real, e: real, lo: real)
    requires 0.0 <= alpha <= 1.0 && b >= lo && e >= lo
    ensures (1.0 - alpha) * b + alpha * e >= lo
  {
    assert (1.0 - alpha) * (b - lo) >= 0.0 && alpha * (e - lo) >= 0.0;
    assert (1.0 - alpha) * b + alpha * e == lo + (1.0 - alpha) * (b - lo) + alpha * (e - lo);
  }

  lemma SmoothingStaysBelow(alpha: real, b: real, e: real, hi: real)
    requires 0.0 <= alpha <= 1.0 && b <= hi && e <= hi
    ensures (1.0 - alpha) * b + alpha * e <= hi
  {
    assert (1.0 - alpha) * (hi - b) >= 0.0 && alpha * (hi - e) >= 0.0;
    assert (1.0 - alpha) * b + alpha * e == hi - (1.0 - alpha) * (hi - b) - alpha * (hi - e);
  }

  // ---------------------------------------------------------------- echo immunity

  /** A stretch of playback whose energies all lie in [lo, hi]. */
  ghost predicate Echo(frames: seq<Frame>, lo: real, hi: real) {
    forall i :: 0 <= i < |frames| ==> frames[i].playing && lo <= frames[i].energy <= hi
  }

  predicate Fresh(st: State) {
    st.baseline.None? && st.delta == 0
  }

  /** The invariant of an echo: the counter never leaves zero and the baseline stays above `lo`. */
  predicate Quiet(st: State, lo: real) {
    st.delta == 0 && (st.baseline.Some? ==> st.baseline.value >= lo)
  }

  lemma EchoFrame(cfg: Config, st: State, f: Frame, lo: real, hi: real)
    requires cfg.Sane() && cfg.sustain >= 1 && hi < cfg.Bar(lo)
    requires Quiet(st, lo) && f.playing && lo <= f.energy <= hi
    ensures Quiet(Step(cfg, st, f).state, lo) && BargeIn(true) !in Step(cfg, st, f).events
  {
    var b := Baseline(cfg, st, f);
    BarMonotone(cfg, lo, b);
    SmoothingStaysAbove(cfg.alpha, b, f.energy, lo);
  }

  /**
   Echo immunity: however long a playback lasts, if its energies stay under the bar of their
   lower bound, the baseline never sinks below that bound and energy never confirms.
   */
  lemma {:induction false} EchoImmunity(cfg: Config, st: State, frames: seq<Frame>, lo: real, hi: real)
    requires cfg.Sane() && cfg.sustain >= 1 && hi < cfg.Bar(lo)
    requires Quiet(st, lo) && Echo(frames, lo, hi)
    ensures var r := Run(cfg, st, frames); Quiet(r.state, lo) && BargeIn(true) !in r.events
    decreases |frames|
  {
    if frames != [] {
      var n := |frames| - 1;
      EchoImmunity(cfg, st, frames[..n], lo, hi);
      EchoFrame(cfg, Run(cfg, st, frames[..n]).state, frames[n], lo, hi);
    }
  }

  // ---------------------------------------------------------------- the leaky counter

  /** The above-bar verdicts along a run. */
  function Verdicts(cfg: Config, st: State, frames: seq<Frame>): (v: seq<bool>)
    ensures |v| == |frames|
  {
    if frames == [] then [] else
    var n := |frames| - 1;
    Verdicts(cfg, st, frames[..n]) + [Above(cfg, Run(cfg, st, frames[..n]).state, frames[n])]
  }

  /** Number of above-bar verdicts minus the number of others. */
  function Balance(v: seq<bool>): int {
    if v == [] then 0 else Balance(v[..|v| - 1]) + if v[|v| - 1] then 1 else -1
  }

  ghost predicate AllPlaying(frames: seq<Frame>) {
    forall i :: 0 <= i < |frames| ==> frames[i].playing
  }

  /** `n` is the greatest balance of a suffix, the empty one included. */
  ghost predicate IsBestSuffix(v: seq<bool>, n: int) {
    && (exists k :: 0 <= k <= |v| && Balance(v[k..]) == n)
    && (forall k :: 0 <= k <= |v| ==> Balance(v[k..]) <= n)
  }

  lemma BestSuffixSnoc(v: seq<bool>, n: nat, above: bool)
    requires IsBestSuffix(v, n)
    ensures IsBestSuffix(v + [above], NextCount(n, above))
  {
    var w := v + [above];
    var d := if above then 1 else -1;
    forall k | 0 <= k <= |v|
      ensures Balance(w[k..]) == Balance(v[k..]) + d
    {
      assert w[k..] == v[k..] + [above];
      assert w[k..][..|w[k..]| - 1] == v[k..];
    }
    assert w[|w|..] == [] && v[|v|..] == [];
    var k :| 0 <= k <= |v| && Balance(v[k..]) == n;
    assert Balance(w[k..]) == n + d;
    assert Balance(w[|w|..]) == 0;
    assert Balance(v[|v|..]) == 0;
  }

  /** The leaky counter after a frame, while nothing fires. */
  function NextCount(count: nat, above: bool): nat {
    if above then count + 1 else if count > 0 then count - 1 else 0
  }

  lemma CounterStep(cfg: Config, st: State, f: Frame)
    requires f.playing && Step(cfg, st, f).events == []
    ensures Step(cfg, st, f).state.delta == NextCount(st.delta, Above(cfg, st, f))
  {
  }

  /** Up to the first interruption of a playback, the counter is the best suffix balance. */
  lemma {:induction false} CounterIsBestSuffix(cfg: Config, st: State, frames: seq<Frame>)
    requires st.delta == 0 && AllPlaying(frames) && Run(cfg, st, frames).events == []
    ensures IsBestSuffix(Verdicts(cfg, st, frames), Run(cfg, st, frames).state.delta)
    decreases |frames|
  {
    if frames == [] {
      assert Balance(Verdicts(cfg, st, frames)[0..]) == 0;
    } else {
      var n := |frames| - 1;
      CounterIsBestSuffix(cfg, st, frames[..n]);
      var before := Run(cfg, st, frames[..n]).state;
      CounterStep(cfg, before, frames[n]);
      BestSuffixSnoc(Verdicts(cfg, st, frames[..n]), before.delta, Above(cfg, before, frames[n]));
    }
  }

  /**
   Energy interrupts at a frame exactly when some stretch ending there has at least
   `sustain` more above-bar frames than others.
   */
  lemma ConfirmsIff(cfg: Config, st: State, frames: seq<Frame>, f: Frame)
    requires cfg.deltaMode && cfg.sustain >= 1
    requires st.delta == 0 && AllPlaying(frames + [f]) && Run(cfg, st, frames).events == []
    ensures var v := Verdicts(cfg, st, frames + [f]);
            Run(cfg, st, frames + [f]).events == [BargeIn(true)]
            <==> exists k :: 0 <= k <= |v| && Balance(v[k..]) >= cfg.sustain
  {
    var before := Run(cfg, st, frames).state;
    BestSuffixAt(cfg, st, frames, f);
    BestSuffixReaches(Verdicts(cfg, st, frames + [f]), NextCount(before.delta, Above(cfg, before, f)), cfg.sustain);
    assert f == (frames + [f])[|frames|];
    ConfirmsAt(cfg, st, frames, f);
  }

  lemma ConfirmsAt(cfg: Config, st: State, frames: seq<Frame>, f: Frame)
    requires cfg.deltaMode && cfg.sustain >= 1 && f.playing && Run(cfg, st, frames).events == []
    ensures var before := Run(cfg, st, frames).state;
            Run(cfg, st, frames + [f]).events == [BargeIn(true)]
            <==> NextCount(before.delta, Above(cfg, before, f)) >= cfg.sustain
  {
    var before := Run(cfg, st, frames);
    ConfirmStep(cfg, before.state, f);
    RunSnoc(cfg, st, frames, f);
    assert [] + Step(cfg, before.state, f).events == Step(cfg, before.state, f).events;
  }

  lemma VerdictsSnoc(cfg: Config, st: State, frames: seq<Frame>, f: Frame)
    ensures Verdicts(cfg, st, frames + [f])
            == Verdicts(cfg, st, frames) + [Above(cfg, Run(cfg, st, frames).state, f)]
  {
    assert (frames + [f])[..|frames|] == frames;
  }

  lemma BestSuffixAt(cfg: Config, st: State, frames: seq<Frame>, f: Frame)
    requires st.delta == 0 && AllPlaying(frames + [f]) && Run(cfg, st, frames).events == []
    ensures var before := Run(cfg, st, frames).state;
            IsBestSuffix(Verdicts(cfg, st, frames + [f]), NextCount(before.delta, Above(cfg, before, f)))
  {
    assert AllPlaying(frames) by {
      assert forall i :: 0 <= i < |frames| ==> frames[i] == (frames + [f])[i];
    }
    CounterIsBestSuffix(cfg, st, frames);
    var before := Run(cfg, st, frames).state;
    BestSuffixSnoc(Verdicts(cfg, st, frames), before.delta, Above(cfg, before, f));
    VerdictsSnoc(cfg, st, frames, f);
  }

  lemma BestSuffixReaches(v: seq<bool>, n: int, m: int)
    requires IsBestSuffix(v, n)
    ensures n >= m <==> exists k :: 0 <= k <= |v| && Balance(v[k..]) >= m
  {
    var k :| 0 <= k <= |v| && Balance(v[k..]) == n;
  }

  lemma ConfirmStep(cfg: Config, st: State, f: Frame)
    requires cfg.deltaMode && cfg.sustain >= 1 && f.playing
    ensures Step(cfg, st, f).events == [BargeIn(true)]
            <==> NextCount(st.delta, Above(cfg, st, f)) >= cfg.sustain
  {
  }

  // ---------------------------------------------------------------- a sustained caller is heard

  ghost predicate Caller(frames: seq<Frame>, level: real) {
    forall i :: 0 <= i < |frames| ==> frames[i].playing && frames[i].energy >= level
  }

  lemma CallerFrame(cfg: Config, st: State, f: Frame, b: real)
    requires cfg.deltaMode && st.baseline == Some(b) && f.playing && f.energy >= cfg.Bar(b)
    requires Step(cfg, st, f).events == []
    ensures var st' := Step(cfg, st, f).state;
            st'.baseline == Some(b) && st'.delta == st.delta + 1 < cfg.sustain
  {
  }

  /** While nothing has fired, every frame over the bar counts and the baseline stays frozen. */
  lemma {:induction false} CallerFreezesBaseline(cfg: Config, st: State, frames: seq<Frame>, b: real)
    requires cfg.deltaMode && st.baseline == Some(b) && Caller(frames, cfg.Bar(b))
    requires Run(cfg, st, frames).events == []
    ensures var r := Run(cfg, st, frames).state;
            && r.baseline == Some(b) && r.delta == st.delta + |frames|
            && (frames != [] ==> r.delta < cfg.sustain)
    decreases |frames|
  {
    if frames != [] {
      var n := |frames| - 1;
      CallerFreezesBaseline(cfg, st, frames[..n], b);
      CallerFrame(cfg, Run(cfg, st, frames[..n]).state, frames[n], b);
    }
  }

  /** The events of a playback are interruptions. */
  lemma {:induction false} PlaybackOnlyInterrupts(cfg: Config, st: State, frames: seq<Frame>)
    requires AllPlaying(frames)
    ensures forall e :: e in Run(cfg, st, frames).events ==> e.BargeIn?
    decreases |frames|
  {
    if frames != [] {
      PlaybackOnlyInterrupts(cfg, st, frames[..|frames| - 1]);
    }
  }

  predicate Interrupted(events: seq<Event>) {
    exists e :: e in events && e.BargeIn?
  }

  /** A caller over the bar for the sustain window always interrupts, whatever the counter was. */
  lemma SustainedCallerInterrupts(cfg: Config, st: State, frames: seq<Frame>, b: real)
    requires cfg.deltaMode && st.baseline == Some(b) && Caller(frames, cfg.Bar(b))
    requires frames != [] && st.delta + |frames| >= cfg.sustain
    ensures Interrupted(Run(cfg, st, frames).events)
  {
    var events := Run(cfg, st, frames).events;
    if events == [] {
      CallerFreezesBaseline(cfg, st, frames, b);
    } else {
      PlaybackOnlyInterrupts(cfg, st, frames);
      assert events[0] in events;
    }
  }

  lemma {:induction false} BaselineBounded(cfg: Config, st: State, frames: seq<Frame>, bound: real)
    requires cfg.Sane() && cfg.seed <= bound && Fresh(st) && frames != []
    requires forall i :: 0 <= i < |frames| ==> frames[i].playing && frames[i].energy <= bound
    requires Run(cfg, st, frames).events == []
    ensures var b := Run(cfg, st, frames).state.baseline; b.Some? && b.value <= bound
    decreases |frames|
  {
    var n := |frames| - 1;
    var before := Run(cfg, st, frames[..n]).state;
    if n > 0 {
      BaselineBounded(cfg, st, frames[..n], bound);
    } else {
      assert frames[..n] == [];
    }
    BaselineFrame(cfg, before, frames[n], bound);
  }

  lemma BaselineFrame(cfg: Config, st: State, f: Frame, bound: real)
    requires cfg.Sane() && f.playing && f.energy <= bound && Baseline(cfg, st, f) <= bound
    requires Step(cfg, st, f).events == []
    ensures var b := Step(cfg, st, f).state.baseline; b.Some? && b.value <= bound
  {
    SmoothingStaysBelow(cfg.alpha, Baseline(cfg, st, f), f.energy, bound);
  }

  /**
   Detection: after at least one playback frame, a caller at or above the bar of the loudest
   echo so far interrupts within the sustain window.
   */
  lemma CallerIsDetected(cfg: Config, st: State, echo: seq<Frame>, caller: seq<Frame>, bound: real)
    requires cfg.Sane() && cfg.deltaMode && cfg.seed <= bound && Fresh(st)
    requires echo != [] && caller != [] && |caller| >= cfg.sustain
    requires forall i :: 0 <= i < |echo| ==> echo[i].playing && echo[i].energy <= bound
    requires Caller(caller, cfg.Bar(bound))
    ensures Interrupted(Run(cfg, st, echo + caller).events)
  {
    RunConcat(cfg, st, echo, caller);
    var first := Run(cfg, st, echo);
    if first.events == [] {
      BaselineBounded(cfg, st, echo, bound);
      var b := first.state.baseline.value;
      BarMonotone(cfg, b, bound);
      SustainedCallerInterrupts(cfg, first.state, caller, b);
    } else {
      PlaybackOnlyInterrupts(cfg, st, echo);
      assert first.events[0] in first.events;
    }
  }

  /**
   A caller who is loud from the first playback frame on seeds the baseline with that very
   loudness and is never detected by energy: the echo frame that detection needs is essential.
   */
  lemma LoudFromTheStartIsMasked(cfg: Config, frames: seq<Frame>, level: real)
    requires cfg.Sane() && cfg.sustain >= 1 && level < cfg.Bar(level)
    requires Echo(frames, level, level)
    ensures BargeIn(true) !in Run(cfg, START, frames).events
  {
    EchoImmunity(cfg, START, frames, level, level);
  }

  // ---------------------------------------------------------------- the word gate

  /** Loud frames since the last VAD silence or listening frame. */
  function LoudRun(cfg: Config, frames: seq<Frame>): nat {
    if frames == [] then 0 else
    var n := |frames| - 1;
    var f := frames[n];
    if !f.playing || !f.isSpeech then 0
    else LoudRun(cfg, frames[..n]) + if f.energy >= cfg.floor then 1 else 0
  }

  lemma {:induction false} ConsecWithinLoudRun(cfg: Config, st: State, frames: seq<Frame>)
    requires st.consec == 0 && cfg.minSpeechChunks >= 1
    ensures Run(cfg, st, frames).state.consec <= LoudRun(cfg, frames)
    decreases |frames|
  {
    if frames != [] {
      ConsecWithinLoudRun(cfg, st, frames[..|frames| - 1]);
    }
  }

  /**
   Even with the back-off to half the threshold, words interrupt only after the full number
   of loud frames without a silent one between them, and only with enough words heard.
   */
  lemma WordGateNeedsSustainedSpeech(cfg: Config, st: State, frames: seq<Frame>, f: Frame)
    requires st.consec == 0 && cfg.minSpeechChunks >= 1
    requires BargeIn(false) in Step(cfg, Run(cfg, st, frames).state, f).events
    ensures LoudRun(cfg, frames + [f]) >= cfg.minSpeechChunks
    ensures f.hasPartial && f.partialWords >= cfg.minPartialWords
  {
    ConsecWithinLoudRun(cfg, st, frames);
    assert (frames + [f])[..|frames|] == frames;
  }

  ghost predicate LoudPlayback(cfg: Config, frames: seq<Frame>) {
    forall i :: 0 <= i < |frames| ==> frames[i].playing && frames[i].isSpeech && frames[i].energy >= cfg.floor
  }

  lemma LoudFrame(cfg: Config, st: State, f: Frame)
    requires f.playing && Loud(cfg, f) && Step(cfg, st, f).events == []
    ensures Step(cfg, st, f).state.consec
            == if st.consec + 1 < cfg.minSpeechChunks then st.consec + 1 else cfg.minSpeechChunks / 2
    ensures st.consec + 1 >= cfg.minSpeechChunks ==> !(f.hasPartial && f.partialWords >= cfg.minPartialWords)
  {
  }

  lemma {:induction false} LoudFramesCount(cfg: Config, st: State, frames: seq<Frame>)
    requires LoudPlayback(cfg, frames) && Run(cfg, st, frames).events == []
    requires st.consec + |frames| < cfg.minSpeechChunks
    ensures Run(cfg, st, frames).state.consec == st.consec + |frames|
    decreases |frames|
  {
    if frames != [] {
      var n := |frames| - 1;
      LoudFramesCount(cfg, st, frames[..n]);
      LoudFrame(cfg, Run(cfg, st, frames[..n]).state, frames[n]);
    }
  }

  /** Enough loud frames in a row interrupt if the last one comes with enough words. */
  lemma {:induction false} SustainedWordsInterrupt(cfg: Config, st: State, frames: seq<Frame>)
    requires LoudPlayback(cfg, frames) && frames != []
    requires st.consec + |frames| == cfg.minSpeechChunks
    requires var f := frames[|frames| - 1]; f.hasPartial && f.partialWords >= cfg.minPartialWords
    ensures Interrupted(Run(cfg, st, frames).events)
  {
    var n, events := |frames| - 1, Run(cfg, st, frames).events;
    if events == [] {
      LoudFramesCount(cfg, st, frames[..n]);
      LoudFrame(cfg, Run(cfg, st, frames[..n]).state, frames[n]);
    } else {
      PlaybackOnlyInterrupts(cfg, st, frames);
      assert events[0] in events;
    }
  }

  /**
   A rejected candidate does not start over: once its words arrive, a caller who goes on talking
   interrupts after the other half of the threshold, 160 ms with the shipped settings.
   */
  lemma RejectedCallerTriesAgain(cfg: Config, st: State, f: Frame, frames: seq<Frame>)
    requires cfg.minSpeechChunks >= 1
    requires f.playing && Loud(cfg, f) && st.consec + 1 >= cfg.minSpeechChunks && Step(cfg, st, f).events == []
    requires LoudPlayback(cfg, frames) && |frames| == cfg.minSpeechChunks - cfg.minSpeechChunks / 2
    requires var last := frames[|frames| - 1]; last.hasPartial && last.partialWords >= cfg.minPartialWords
    ensures Interrupted(Run(cfg, Step(cfg, st, f).state, frames).events)
    ensures (DEFAULT.minSpeechChunks - DEFAULT.minSpeechChunks / 2) * CHUNK_MS == 160
  {
    LoudFrame(cfg, st, f);
    SustainedWordsInterrupt(cfg, Step(cfg, st, f).state, frames);
  }

  /** Playback that does not interrupt leaves the utterance alone, but for the loud frames under the threshold, which are kept. */
  lemma PlaybackKeepsLoudFrames(cfg: Config, st: State, f: Frame)
    requires f.playing && Step(cfg, st, f).events == []
    ensures var t := Step(cfg, st, f).state;
            && t.buffer == (if f.isSpeech && f.energy >= cfg.floor && st.consec + 1 < cfg.minSpeechChunks
                            then st.buffer + [f] else st.buffer)
            && t.speechStarted == st.speechStarted && t.silence == st.silence && t.speechChunks == st.speechChunks
  {
  }

  /** Listening forgets the echo and the loud frames: the next playback measures from scratch. */
  lemma ListeningForgetsPlayback(cfg: Config, st: State, frames: seq<Frame>)
    requires frames != [] && !frames[|frames| - 1].playing
    ensures var t := Run(cfg, st, frames).state; Fresh(t) && t.consec == 0
  {
  }

  // ---------------------------------------------------------------- which utterances follow an interruption

  predicate EndsInterrupted(events: seq<Event>) {
    events != [] && events[|events| - 1].BargeIn?
  }

  /** An utterance is marked as an interruption exactly if one directly precedes it. */
  ghost predicate Marked(events: seq<Event>) {
    forall i :: 0 <= i < |events| && events[i].Utterance? ==> events[i].isBargeIn == EndsInterrupted(events[..i])
  }

  lemma StepMarks(cfg: Config, st: State, f: Frame)
    ensures var now := Step(cfg, st, f);
            && |now.events| <= 1
            && (now.events == [] ==> now.state.nextIsBargeIn == st.nextIsBargeIn)
            && (now.events != [] && now.events[0].BargeIn? ==> now.state.nextIsBargeIn)
            && (now.events != [] && now.events[0].Utterance? ==>
                  !now.state.nextIsBargeIn && now.events[0].isBargeIn == st.nextIsBargeIn)
  {
  }

  lemma MarkedSnoc(events: seq<Event>, e: Event)
    requires Marked(events) && (e.Utterance? ==> e.isBargeIn == EndsInterrupted(events))
    ensures Marked(events + [e])
  {
    var all := events + [e];
    forall i | 0 <= i < |all| && all[i].Utterance? ensures all[i].isBargeIn == EndsInterrupted(all[..i]) {
      assert all[..i] == events[..i];
      assert events[..|events|] == events;
    }
  }

  /** On every run, playback and listening mixed, exactly the utterances that follow an interruption are marked. */
  lemma {:induction false} InterruptionsAreMarked(cfg: Config, frames: seq<Frame>)
    ensures var r := Run(cfg, START, frames);
            Marked(r.events) && r.state.nextIsBargeIn == EndsInterrupted(r.events)
    decreases |frames|
  {
    if frames != [] {
      var n := |frames| - 1;
      InterruptionsAreMarked(cfg, frames[..n]);
      var before := Run(cfg, START, frames[..n]);
      var now := Step(cfg, before.state, frames[n]);
      StepMarks(cfg, before.state, frames[n]);
      if now.events == [] {
        assert before.events + [] == before.events;
      } else {
        assert now.events == [now.events[0]];
        MarkedSnoc(before.events, now.events[0]);
      }
    }
  }
}
