/**
 When playback alone can make energy interrupt: the exact condition on the range of its energies,
 for lines at or above the seed of the baseline and for quieter ones.
 */
module EchoBound {
  import opened Text
  import opened AgentLoop

  /** A silent playback frame (by VAD), so that the word gate cannot fire on it. */
  function EchoSample(energy: real): Frame {
    Frame(0, false, energy, true, false, false, 0)
  }

  /** Some playback within [lo, hi] makes energy interrupt. */
  ghost predicate EchoCanInterrupt(cfg: Config, lo: real, hi: real) {
    exists frames :: Echo(frames, lo, hi) && BargeIn(true) in Run(cfg, START, frames).events
  }

  /** The lowest baseline that a playback with energies from `lo` on can start with. */
  function Lowest(cfg: Config, lo: real): real {
    if cfg.seed <= lo then lo else cfg.seed
  }

  /** The bar grows strictly right of `lo`; only a multiplier of zero can make it flat there. */
  predicate Rising(cfg: Config, lo: real) {
    cfg.mult > 0.0 || lo + cfg.margin >= 0.0
  }

  /**
   `hi` gets over the bar.  A baseline that does not adapt stays where it starts; one that adapts
   comes down to `lo` if it starts there or adapts at once, and otherwise only approaches it.
   */
  predicate Reaches(cfg: Config, lo: real, hi: real) {
    if cfg.alpha == 0.0 then hi >= cfg.Bar(Lowest(cfg, lo))
    else if cfg.seed <= lo || cfg.alpha == 1.0 || !Rising(cfg, lo) then hi >= cfg.Bar(lo)
    else hi > cfg.Bar(lo)
  }

  // ---------------------------------------------------------------- immunity

  lemma ProductPositive(x: real, y: real)
    requires x > 0.0 && y > 0.0
    ensures x * y > 0.0
  {
  }

  lemma ScaledLess(a: real, b: real, k: real, low: real, high: real)
    requires a < b && k > 0.0 && low == a * k && high == b * k
    ensures low < high
  {
    ProductPositive(b - a, k);
    assert (b - a) * k == high - low;
  }

  lemma ZeroTimes(x: real, k: real)
    requires k == 0.0
    ensures x * k == 0.0
  {
  }

  lemma BarRises(cfg: Config, lo: real, b: real)
    requires cfg.Sane() && Rising(cfg, lo) && lo < b
    ensures cfg.Bar(lo) < cfg.Bar(b)
  {
    if cfg.mult > 0.0 {
      var low, high := lo * cfg.mult, b * cfg.mult;
      ScaledLess(lo, b, cfg.mult, low, high);
      GreaterRises(low, lo + cfg.margin, high, b + cfg.margin, cfg.Bar(lo), cfg.Bar(b));
    } else {
      ZeroTimes(lo, cfg.mult);
    }
  }

  /** The greater of two numbers rises if both do. */
  lemma GreaterRises(l1: real, l2: real, h1: real, h2: real, low: real, high: real)
    requires l1 < h1 && l2 < h2 && (low == l1 || low == l2) && high >= h1 && high >= h2
    ensures low < high
  {
  }

  lemma SmoothingStaysStrictlyAbove(alpha: real, b: real, e: real, lo: real)
    requires 0.0 <= alpha < 1.0 && b > lo && e >= lo
    ensures (1.0 - alpha) * b + alpha * e > lo
  {
    ProductPositive(1.0 - alpha, b - lo);
    ProductNonNegative(alpha, e - lo);
    assert (1.0 - alpha) * b + alpha * e == lo + (1.0 - alpha) * (b - lo) + alpha * (e - lo);
  }

  /** The counter is at zero and the baseline strictly above `lo`. */
  predicate Hovers(st: State, lo: real) {
    st.delta == 0 && (st.baseline.Some? ==> st.baseline.value > lo)
  }

  lemma HoverFrame(cfg: Config, st: State, f: Frame, lo: real, hi: real)
    requires cfg.Sane() && cfg.sustain >= 1 && cfg.alpha < 1.0 && Rising(cfg, lo)
    requires lo < cfg.seed && hi <= cfg.Bar(lo)
    requires Hovers(st, lo) && f.playing && lo <= f.energy <= hi
    ensures Hovers(Step(cfg, st, f).state, lo) && BargeIn(true) !in Step(cfg, st, f).events
  {
    var b := Baseline(cfg, st, f);
    BarRises(cfg, lo, b);
    SmoothingStaysStrictlyAbove(cfg.alpha, b, f.energy, lo);
  }

  /** Under the seed, a baseline that adapts gradually never comes down to `lo`, so even the bar itself is safe. */
  lemma {:induction false} HoverImmunity(cfg: Config, frames: seq<Frame>, lo: real, hi: real)
    requires cfg.Sane() && cfg.sustain >= 1 && cfg.alpha < 1.0 && Rising(cfg, lo)
    requires lo < cfg.seed && hi <= cfg.Bar(lo) && Echo(frames, lo, hi)
    ensures var r := Run(cfg, START, frames); Hovers(r.state, lo) && BargeIn(true) !in r.events
    decreases |frames|
  {
    if frames != [] {
      var n := |frames| - 1;
      HoverImmunity(cfg, frames[..n], lo, hi);
      HoverFrame(cfg, Run(cfg, START, frames[..n]).state, frames[n], lo, hi);
    }
  }

  lemma FixedFrame(cfg: Config, st: State, f: Frame, lo: real, hi: real)
    requires cfg.Sane() && cfg.sustain >= 1 && cfg.alpha == 0.0 && hi < cfg.Bar(Lowest(cfg, lo))
    requires Quiet(st, Lowest(cfg, lo)) && f.playing && lo <= f.energy <= hi
    ensures Quiet(Step(cfg, st, f).state, Lowest(cfg, lo)) && BargeIn(true) !in Step(cfg, st, f).events
  {
    var b := Baseline(cfg, st, f);
    BarMonotone(cfg, Lowest(cfg, lo), b);
    assert cfg.Smooth(b, f.energy) == b;
  }

  /** A baseline that does not adapt stays at or above the lowest start. */
  lemma {:induction false} FixedImmunity(cfg: Config, frames: seq<Frame>, lo: real, hi: real)
    requires cfg.Sane() && cfg.sustain >= 1 && cfg.alpha == 0.0 && hi < cfg.Bar(Lowest(cfg, lo))
    requires Echo(frames, lo, hi)
    ensures var r := Run(cfg, START, frames); Quiet(r.state, Lowest(cfg, lo)) && BargeIn(true) !in r.events
    decreases |frames|
  {
    if frames != [] {
      var n := |frames| - 1;
      FixedImmunity(cfg, frames[..n], lo, hi);
      FixedFrame(cfg, Run(cfg, START, frames[..n]).state, frames[n], lo, hi);
    }
  }

  // ---------------------------------------------------------------- interruption

  lemma {:induction false} NoSpeechNoWordGate(cfg: Config, st: State, frames: seq<Frame>)
    requires AllPlaying(frames) && forall i :: 0 <= i < |frames| ==> !frames[i].isSpeech
    ensures BargeIn(false) !in Run(cfg, st, frames).events
    decreases |frames|
  {
    if frames != [] {
      NoSpeechNoWordGate(cfg, st, frames[..|frames| - 1]);
    }
  }

  /** `n` frames at `lo` and then the sustain window at `hi`. */
  function QuietThenLoud(cfg: Config, lo: real, hi: real, n: nat): seq<Frame> {
    Repeat(EchoSample(lo), n) + Repeat(EchoSample(hi), cfg.sustain)
  }

  /** Silent playback that interrupts does so by energy. */
  lemma SilentInterrupts(cfg: Config, frames: seq<Frame>, lo: real, hi: real)
    requires Echo(frames, lo, hi) && (forall i :: 0 <= i < |frames| ==> !frames[i].isSpeech)
    requires Run(cfg, START, frames).events != []
    ensures EchoCanInterrupt(cfg, lo, hi)
  {
    NoSpeechNoWordGate(cfg, START, frames);
    PlaybackOnlyInterrupts(cfg, START, frames);
    var e := Run(cfg, START, frames).events[0];
    assert e in Run(cfg, START, frames).events;
    assert e == BargeIn(true) || e == BargeIn(false);
  }

  /** It interrupts if the frames at `lo` leave a baseline whose bar `hi` reaches. */
  lemma LoudEnough(cfg: Config, lo: real, hi: real, n: nat)
    requires cfg.deltaMode && cfg.sustain >= 1 && lo <= hi
    requires var quiet := Run(cfg, START, Repeat(EchoSample(lo), n));
             quiet.events == [] ==> quiet.state.baseline.Some? && cfg.Bar(quiet.state.baseline.value) <= hi
    ensures EchoCanInterrupt(cfg, lo, hi)
  {
    var echo, caller := Repeat(EchoSample(lo), n), Repeat(EchoSample(hi), cfg.sustain);
    var quiet := Run(cfg, START, echo);
    RunConcat(cfg, START, echo, caller);
    if quiet.events == [] {
      SustainedCallerInterrupts(cfg, quiet.state, caller, quiet.state.baseline.value);
    }
    SilentInterrupts(cfg, QuietThenLoud(cfg, lo, hi, n), lo, hi);
  }

  lemma RepeatSnoc<T>(x: T, n: nat)
    requires n >= 1
    ensures Repeat(x, n)[..n - 1] == Repeat(x, n - 1) && Repeat(x, n)[n - 1] == x
  {
  }

  /** One more frame at `lo`: counted as loud, or smoothed into the baseline. */
  lemma QuietFrame(cfg: Config, st: State, lo: real)
    requires Step(cfg, st, EchoSample(lo)).events == []
    ensures var b := Baseline(cfg, st, EchoSample(lo));
            Step(cfg, st, EchoSample(lo)).state.baseline
            == Some(if cfg.deltaMode && lo >= cfg.Bar(b) then b else cfg.Smooth(b, lo))
  {
  }

  /** What is left of a distance after `n` steps. */
  function Left(distance: real, step: real, n: nat): real {
    if n == 0 then distance else Left(distance, step, n - 1) - step
  }

  lemma {:induction false} LeftIs(distance: real, step: real, n: nat)
    ensures Left(distance, step, n) == distance - n as real * step
  {
    if n > 0 {
      LeftIs(distance, step, n - 1);
      assert n as real * step == (n - 1) as real * step + step;
    }
  }

  /** A gap is within `eps`, or `left` at most. */
  predicate Small(gap: real, eps: real, left: real) {
    0.0 <= gap && (gap <= eps || gap <= left)
  }

  /** Smoothing towards `lo` takes at least `alpha * eps` off a gap that is not within `eps` yet. */
  lemma GapShrinks(cfg: Config, lo: real, b: real, eps: real, left: real)
    requires cfg.Sane() && eps > 0.0 && Small(b - lo, eps, left)
    ensures Small(cfg.Smooth(b, lo) - lo, eps, left - cfg.alpha * eps)
  {
    SmoothedGap(cfg.alpha, b, lo);
    SmallShrinks(cfg.alpha, b - lo, eps, left);
  }

  lemma SmallShrinks(alpha: real, gap: real, eps: real, left: real)
    requires 0.0 <= alpha <= 1.0 && Small(gap, eps, left)
    ensures Small(gap - alpha * gap, eps, left - alpha * eps)
  {
    GapStep(alpha, gap, eps);
    SmallStep(gap, alpha * gap, alpha * eps, eps, left);
  }

  lemma SmallStep(gap: real, less: real, least: real, eps: real, left: real)
    requires Small(gap, eps, left) && 0.0 <= less <= gap && (gap >= eps ==> less >= least)
    ensures Small(gap - less, eps, left - least)
  {
  }

  lemma SmoothedGap(alpha: real, b: real, lo: real)
    ensures ((1.0 - alpha) * b + alpha * lo) - lo == (b - lo) - alpha * (b - lo)
  {
  }

  lemma GapStep(alpha: real, gap: real, eps: real)
    requires 0.0 <= alpha <= 1.0 && 0.0 <= gap
    ensures 0.0 <= gap - alpha * gap <= gap
    ensures gap >= eps ==> alpha * gap >= alpha * eps
  {
    ProductNonNegative(alpha, gap);
    ProductNonNegative(1.0 - alpha, gap);
    assert (1.0 - alpha) * gap == gap - alpha * gap;
    if gap >= eps {
      ProductNonNegative(alpha, gap - eps);
      assert alpha * (gap - eps) == alpha * gap - alpha * eps;
    }
  }

  /** `lo` reaches the bar of this baseline, or the gap between them has shrunk. */
  predicate Decayed(cfg: Config, lo: real, eps: real, left: real, b: real) {
    cfg.Bar(b) <= lo || Small(b - lo, eps, left)
  }

  lemma DecayFrame(cfg: Config, st: State, lo: real, eps: real, left: real)
    requires cfg.Sane() && eps > 0.0 && Step(cfg, st, EchoSample(lo)).events == []
    requires Decayed(cfg, lo, eps, left, Baseline(cfg, st, EchoSample(lo)))
    ensures var b := Step(cfg, st, EchoSample(lo)).state.baseline;
            cfg.deltaMode ==> b.Some? && Decayed(cfg, lo, eps, left - cfg.alpha * eps, b.value)
  {
    QuietFrame(cfg, st, lo);
    var b := Baseline(cfg, st, EchoSample(lo));
    if cfg.Bar(b) > lo {
      GapShrinks(cfg, lo, b, eps, left);
    }
  }

  /** While nothing fires, frames at `lo` bring the baseline down to it, or to a bar that `lo` itself reaches. */
  lemma {:induction false} EchoDecays(cfg: Config, lo: real, eps: real, n: nat)
    requires cfg.Sane() && cfg.deltaMode && lo < cfg.seed && eps > 0.0 && n >= 1
    requires Run(cfg, START, Repeat(EchoSample(lo), n)).events == []
    ensures var b := Run(cfg, START, Repeat(EchoSample(lo), n)).state.baseline;
            b.Some? && Decayed(cfg, lo, eps, Left(cfg.seed - lo, cfg.alpha * eps, n), b.value)
    decreases n
  {
    var frames, left := Repeat(EchoSample(lo), n), Left(cfg.seed - lo, cfg.alpha * eps, n - 1);
    RepeatSnoc(EchoSample(lo), n);
    if n > 1 {
      EchoDecays(cfg, lo, eps, n - 1);
    } else {
      assert frames[..n - 1] == [];
    }
    DecayFrame(cfg, Run(cfg, START, frames[..n - 1]).state, lo, eps, left);
  }

  /** The bar grows by at most `mult + 1` times as much as the baseline. */
  lemma BarSlope(cfg: Config, lo: real, b: real, gap: real)
    requires cfg.Sane() && b == lo + gap && gap >= 0.0
    ensures cfg.Bar(b) <= cfg.Bar(lo) + gap * (cfg.mult + 1.0)
  {
    ProductNonNegative(gap, cfg.mult);
    assert b * cfg.mult == lo * cfg.mult + gap * cfg.mult;
    assert gap * (cfg.mult + 1.0) == gap * cfg.mult + gap;
  }

  lemma ScaledAtMost(a: real, b: real, k: real)
    requires a <= b && k >= 0.0
    ensures a * k <= b * k
  {
    ProductNonNegative(b - a, k);
    assert (b - a) * k == b * k - a * k;
  }

  lemma BarWithin(cfg: Config, lo: real, hi: real, b: real, gap: real, eps: real)
    requires cfg.Sane() && b == lo + gap && 0.0 <= gap <= eps
    requires eps * (cfg.mult + 1.0) == hi - cfg.Bar(lo)
    ensures cfg.Bar(b) <= hi
  {
    BarSlope(cfg, lo, b, gap);
    ScaledAtMost(gap, eps, cfg.mult + 1.0);
  }

  /** How close to `lo` the baseline has to come for `hi` to reach its bar. */
  lemma Slack(cfg: Config, lo: real, hi: real) returns (eps: real)
    requires cfg.Sane() && (if Rising(cfg, lo) then hi > cfg.Bar(lo) else hi >= cfg.Bar(lo))
    ensures eps > 0.0 && forall b :: lo <= b <= lo + eps ==> cfg.Bar(b) <= hi
  {
    if Rising(cfg, lo) {
      var k := cfg.mult + 1.0;
      eps := (hi - cfg.Bar(lo)) / k;
      assert eps * k == hi - cfg.Bar(lo);
      forall b | lo <= b <= lo + eps ensures cfg.Bar(b) <= hi {
        BarWithin(cfg, lo, hi, b, b - lo, eps);
      }
    } else {
      eps := -(lo + cfg.margin);
    }
  }

  /** Enough steps of size `step` to cover `distance`. */
  lemma Enough(distance: real, step: real) returns (n: nat)
    requires distance > 0.0 && step > 0.0
    ensures n >= 1 && n as real * step >= distance
  {
    var q := distance / step;
    assert q * step == distance && q > 0.0;
    n := q.Floor + 1;
    ProductNonNegative(n as real - q, step);
    assert n as real * step == q * step + (n as real - q) * step;
  }

  /** On a line under the seed: frames at `lo` until the baseline is near enough, and then loud ones. */
  lemma DecayInterrupts(cfg: Config, lo: real, hi: real)
    requires cfg.Sane() && cfg.deltaMode && cfg.sustain >= 1 && lo <= hi && lo < cfg.seed && cfg.alpha > 0.0
    requires if Rising(cfg, lo) then hi > cfg.Bar(lo) else hi >= cfg.Bar(lo)
    ensures EchoCanInterrupt(cfg, lo, hi)
  {
    var eps := Slack(cfg, lo, hi);
    var step := cfg.alpha * eps;
    ProductPositive(cfg.alpha, eps);
    var n := Enough(cfg.seed - lo, step);
    LeftIs(cfg.seed - lo, step, n);
    if Run(cfg, START, Repeat(EchoSample(lo), n)).events == [] {
      EchoDecays(cfg, lo, eps, n);
      DecayedEnough(cfg, lo, hi, eps, Run(cfg, START, Repeat(EchoSample(lo), n)).state.baseline.value);
    }
    LoudEnough(cfg, lo, hi, n);
  }

  lemma DecayedEnough(cfg: Config, lo: real, hi: real, eps: real, b: real)
    requires lo <= hi && eps > 0.0 && (forall x :: lo <= x <= lo + eps ==> cfg.Bar(x) <= hi)
    requires exists left :: left <= 0.0 && Decayed(cfg, lo, eps, left, b)
    ensures cfg.Bar(b) <= hi
  {
  }

  lemma SmoothedBelow(cfg: Config, b: real, lo: real)
    requires cfg.Sane() && lo <= b
    ensures cfg.Smooth(b, lo) <= b
  {
    SmoothedGap(cfg.alpha, b, lo);
    GapStep(cfg.alpha, b - lo, 0.0);
  }

  lemma MixedAtOne(alpha: real, b: real, e: real)
    requires alpha == 1.0
    ensures (1.0 - alpha) * b + alpha * e == e
  {
    var rest := 1.0 - alpha;
    assert rest == 0.0 && rest * b == 0.0;
    assert alpha * e == e;
  }

  /** One frame at `lo` is enough if the baseline starts as low as it ever gets, or adapts at once. */
  lemma OneFrameInterrupts(cfg: Config, lo: real, hi: real)
    requires cfg.Sane() && cfg.deltaMode && cfg.sustain >= 1 && lo <= hi
    requires if cfg.alpha == 1.0 then hi >= cfg.Bar(lo) else hi >= cfg.Bar(Lowest(cfg, lo))
    ensures EchoCanInterrupt(cfg, lo, hi)
  {
    var one := Repeat(EchoSample(lo), 1);
    RepeatSnoc(EchoSample(lo), 1);
    assert one[..0] == [] && one == [] + [EchoSample(lo)];
    RunSnoc(cfg, START, [], EchoSample(lo));
    if Run(cfg, START, one).events == [] {
      QuietFrame(cfg, START, lo);
      var b := Lowest(cfg, lo);
      if cfg.alpha == 1.0 {
        MixedAtOne(cfg.alpha, b, lo);
      }
      SmoothedBelow(cfg, b, lo);
      BarMonotone(cfg, cfg.Smooth(b, lo), b);
    }
    LoudEnough(cfg, lo, hi, 1);
  }

  /** For every range of energies: some playback within it interrupts exactly if its top gets over the bar. */
  lemma EchoImmunityIff(cfg: Config, lo: real, hi: real)
    requires cfg.Sane() && cfg.deltaMode && cfg.sustain >= 1 && lo <= hi
    ensures EchoCanInterrupt(cfg, lo, hi) <==> Reaches(cfg, lo, hi)
  {
    if Reaches(cfg, lo, hi) {
      if cfg.alpha == 0.0 || cfg.alpha == 1.0 || cfg.seed <= lo {
        OneFrameInterrupts(cfg, lo, hi);
      } else {
        DecayInterrupts(cfg, lo, hi);
      }
    } else {
      forall frames | Echo(frames, lo, hi)
        ensures BargeIn(true) !in Run(cfg, START, frames).events
      {
        if cfg.alpha == 0.0 {
          FixedImmunity(cfg, frames, lo, hi);
        } else if hi < cfg.Bar(lo) {
          EchoImmunity(cfg, START, frames, lo, hi);
        } else {
          HoverImmunity(cfg, frames, lo, hi);
        }
      }
    }
  }

  /** With the shipped settings: a line at or above 300 must stay under its bar, a quieter one may touch it. */
  lemma ShippedBound(lo: real, hi: real)
    requires lo <= hi
    ensures EchoCanInterrupt(DEFAULT, lo, hi)
            <==> if lo >= 300.0 then hi >= 2.0 * lo && hi >= lo + 600.0 else hi > 2.0 * lo && hi > lo + 600.0
  {
    EchoImmunityIff(DEFAULT, lo, hi);
  }
}
