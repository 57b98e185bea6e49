/**
 Utterance segmentation: what the listening half of the audio loop dispatches, against the
 simple reference `collect_utterance` and against a direct description of an utterance.
 */
module Endpointing {
  import opened Text
  import opened AgentLoop

  ghost predicate Listening(frames: seq<Frame>) {
    forall i :: 0 <= i < |frames| ==> !frames[i].playing
  }

  // ---------------------------------------------------------------- the reference

  datatype Collected = Collected(audio: seq<Frame>, used: nat, ended: bool)

  /**
   `collect_utterance` resumed after some frames, with two limits: the silence that ends it is
   `short` while the live partial reads as complete, and `full` otherwise.
   */
  function CollectFrom(frames: seq<Frame>, started: bool, silence: nat, audio: seq<Frame>, short: nat, full: nat): (c: Collected)
    ensures c.used <= |frames| && (c.ended ==> c.used >= 1)
    decreases |frames|
  {
    if frames == [] then Collected(audio, 0, false) else
    var f := frames[0];
    if !f.isSpeech && started && silence + 1 >= (if f.partialComplete then short else full) then Collected(audio + [f], 1, true) else
    var rest :=
      if f.isSpeech then CollectFrom(frames[1..], true, 0, audio + [f], short, full)
      else if started then CollectFrom(frames[1..], true, silence + 1, audio + [f], short, full)
      else CollectFrom(frames[1..], false, silence, audio, short, full);
    rest.(used := rest.used + 1)
  }

  /** The reference on fresh frames; `collect_utterance` has one limit for both. */
  function Collect(frames: seq<Frame>, short: nat, full: nat): Collected {
    CollectFrom(frames, false, 0, [], short, full)
  }

  // ---------------------------------------------------------------- what an utterance is

  /** The number of silent frames at the end of `audio`. */
  function SilentRun(audio: seq<Frame>): (n: nat)
    ensures n <= |audio|
  {
    if audio == [] || audio[|audio| - 1].isSpeech then 0 else 1 + SilentRun(audio[..|audio| - 1])
  }

  /** The closing silence has reached the limit that the last frame's partial calls for. */
  predicate Ended(short: nat, full: nat, audio: seq<Frame>) {
    && audio != [] && !audio[|audio| - 1].isSpeech
    && SilentRun(audio) >= if audio[|audio| - 1].partialComplete then short else full
  }

  /** Speech has begun and has not ended at any moment so far. */
  ghost predicate Open(short: nat, full: nat, audio: seq<Frame>) {
    && audio != [] && audio[0].isSpeech
    && forall n :: 0 < n <= |audio| ==> !Ended(short, full, audio[..n])
  }

  /** Begins with speech and ends exactly at the first moment its closing silence is long enough. */
  ghost predicate IsUtterance(short: nat, full: nat, audio: seq<Frame>) {
    && audio != [] && audio[0].isSpeech && Ended(short, full, audio)
    && Open(short, full, audio[..|audio| - 1])
  }

  lemma OpenSnoc(short: nat, full: nat, audio: seq<Frame>, f: Frame)
    requires if audio == [] then f.isSpeech else Open(short, full, audio)
    ensures var more := audio + [f];
            && SilentRun(more) == (if f.isSpeech then 0 else SilentRun(audio) + 1)
            && (if Ended(short, full, more) then IsUtterance(short, full, more)
                else Open(short, full, more))
  {
    var more := audio + [f];
    assert more[..|audio|] == audio && more[..|more|] == more;
    assert forall n :: 0 < n <= |audio| ==> more[..n] == audio[..n];
  }

  ghost predicate Silent(frames: seq<Frame>) {
    forall i :: 0 <= i < |frames| ==> !frames[i].isSpeech
  }

  /** The loop of `collect_utterance`. */
  method CollectUtterance(frames: seq<Frame>, silenceMs: nat) returns (audio: seq<Frame>)
    ensures audio == Collect(frames, silenceMs / CHUNK_MS, silenceMs / CHUNK_MS).audio
  {
    var need := silenceMs / CHUNK_MS;
    var started, silence := false, 0;
    audio := [];
    assert frames[0..] == frames;
    for i := 0 to |frames|
      invariant silence >= 0
      invariant CollectFrom(frames[i..], started, silence, audio, need, need).audio == Collect(frames, need, need).audio
    {
      var f := frames[i];
      assert frames[i..][0] == f && frames[i..][1..] == frames[i + 1..];
      if f.isSpeech {
        started, silence, audio := true, 0, audio + [f];
      } else if started {
        silence, audio := silence + 1, audio + [f];
        if silence >= need {
          return;
        }
      }
    }
  }

  /** Once speech has begun, the reference takes every frame up to the end. */
  lemma {:induction false} CollectOpen(frames: seq<Frame>, audio: seq<Frame>, short: nat, full: nat)
    requires Open(short, full, audio)
    ensures var c := CollectFrom(frames, true, SilentRun(audio), audio, short, full);
            && (c.ended ==> IsUtterance(short, full, c.audio))
            && c.audio == audio + frames[..c.used] && (!c.ended ==> c.used == |frames|)
    decreases |frames|
  {
    if frames == [] {
      assert audio + [] == audio;
    } else {
      var f, rest, more := frames[0], frames[1..], audio + [frames[0]];
      OpenSnoc(short, full, audio, f);
      if Ended(short, full, more) {
        assert frames[..1] == [f];
      } else {
        CollectOpen(rest, more, short, full);
        TakeOne(frames, audio, CollectFrom(rest, true, SilentRun(more), more, short, full).used);
      }
    }
  }

  lemma TakeOne(frames: seq<Frame>, audio: seq<Frame>, used: nat)
    requires used < |frames|
    ensures (audio + [frames[0]]) + frames[1..][..used] == audio + frames[..used + 1]
  {
    assert [frames[0]] + frames[1..][..used] == frames[..used + 1];
    Assoc(audio, [frames[0]], frames[1..][..used]);
  }

  lemma CollectSpeech(frames: seq<Frame>, short: nat, full: nat)
    requires frames != [] && frames[0].isSpeech
    ensures var c := Collect(frames, short, full);
            && c.used >= 1 && c.audio == frames[..c.used]
            && (if c.ended then IsUtterance(short, full, c.audio) else c.used == |frames|)
  {
    var rest, head := frames[1..], [frames[0]];
    OpenSnoc(short, full, [], frames[0]);
    assert [] + [frames[0]] == head;
    CollectOpen(rest, head, short, full);
    TakeOne(frames, [], CollectFrom(rest, true, 0, head, short, full).used);
  }

  /**
   The reference skips silence and then returns everything from the first speech on: up to the end
   of the utterance and no further, or all there is if the utterance does not end.
   */
  lemma {:induction false} CollectShape(frames: seq<Frame>, short: nat, full: nat) returns (first: nat)
    ensures var c := Collect(frames, short, full);
            && first <= c.used && Silent(frames[..first]) && c.audio == frames[first..c.used]
            && (c.audio != [] ==> frames[first].isSpeech)
            && (if c.ended then IsUtterance(short, full, c.audio) else c.used == |frames|)
    decreases |frames|
  {
    first := 0;
    if frames != [] {
      var rest := frames[1..];
      if frames[0].isSpeech {
        CollectSpeech(frames, short, full);
      } else {
        var inner := CollectShape(rest, short, full);
        first := inner + 1;
        assert frames[..first] == [frames[0]] + rest[..inner];
        assert rest[inner..Collect(rest, short, full).used] == frames[first..Collect(frames, short, full).used];
      }
    }
  }

  // ---------------------------------------------------------------- the loop against the reference

  /** The audio of the dispatched utterances. */
  function Audios(events: seq<Event>): seq<seq<Frame>> {
    if events == [] then []
    else (if events[0].Utterance? then [events[0].audio] else []) + Audios(events[1..])
  }

  /** The reference applied again and again, each time after the previous endpoint. */
  function Segments(frames: seq<Frame>, short: nat, full: nat): seq<seq<Frame>>
    decreases |frames|
  {
    var c := Collect(frames, short, full);
    if c.ended then [c.audio] + Segments(frames[c.used..], short, full) else []
  }

  lemma RunCons(cfg: Config, st: State, frames: seq<Frame>)
    requires frames != []
    ensures var first := Step(cfg, st, frames[0]);
            var rest := Run(cfg, first.state, frames[1..]);
            Run(cfg, st, frames) == Outcome(rest.state, first.events + rest.events)
  {
    assert frames == [frames[0]] + frames[1..];
    RunConcat(cfg, st, [frames[0]], frames[1..]);
    RunSnoc(cfg, st, [], frames[0]);
    assert [] + [frames[0]] == [frames[0]];
    assert [] + Step(cfg, st, frames[0]).events == Step(cfg, st, frames[0]).events;
  }

  /** The limit for a partial that reads as complete. */
  function Early(cfg: Config): nat {
    if cfg.semanticEndpoint then cfg.shortLimit else cfg.fullLimit
  }

  /** The loop has done, on the frames the reference used, what the reference did. */
  predicate Agrees(r: Outcome, c: Collected) {
    if c.ended then
      r.state == START && |r.events| == 1 && r.events[0].Utterance? && r.events[0].audio == c.audio
    else
      r.events == [] && r.state.buffer == c.audio
  }

  lemma ListenStep(cfg: Config, st: State, f: Frame)
    requires !f.playing
    ensures var now := Step(cfg, st, f);
            if !f.isSpeech && st.speechStarted && st.silence + 1 >= (if f.partialComplete then Early(cfg) else cfg.fullLimit) then
              Agrees(now, Collected(st.buffer + [f], 1, true))
            else
              && now.events == []
              && now.state.speechStarted == (f.isSpeech || st.speechStarted)
              && now.state.silence == (if f.isSpeech then 0 else if st.speechStarted then st.silence + 1 else st.silence)
              && now.state.buffer == if f.isSpeech || st.speechStarted then st.buffer + [f] else st.buffer
  {
  }

  /** The reference resumed in the loop's state. */
  function CollectIn(cfg: Config, st: State, frames: seq<Frame>): (c: Collected)
    ensures c.used <= |frames|
  {
    CollectFrom(frames, st.speechStarted, st.silence, st.buffer, Early(cfg), cfg.fullLimit)
  }

  /** One frame of the reference is one frame of the loop. */
  lemma CollectStep(cfg: Config, st: State, frames: seq<Frame>)
    requires frames != [] && !frames[0].playing
    ensures var now, c := Step(cfg, st, frames[0]), CollectIn(cfg, st, frames);
            if now.events == [] then
              var later := CollectIn(cfg, now.state, frames[1..]);
              c == later.(used := later.used + 1)
            else c.ended && c.used == 1 && Agrees(now, c)
  {
    ListenStep(cfg, st, frames[0]);
  }

  lemma RunPrefix(cfg: Config, st: State, frames: seq<Frame>, n: nat)
    requires n < |frames| && Step(cfg, st, frames[0]).events == []
    ensures Run(cfg, st, frames[..n + 1]) == Run(cfg, Step(cfg, st, frames[0]).state, frames[1..][..n])
  {
    RunCons(cfg, st, frames[..n + 1]);
    assert frames[..n + 1][1..] == frames[1..][..n];
    var later := Run(cfg, Step(cfg, st, frames[0]).state, frames[1..][..n]);
    assert [] + later.events == later.events;
  }

  lemma RunFirst(cfg: Config, st: State, frames: seq<Frame>)
    requires frames != []
    ensures Run(cfg, st, frames[..1]) == Step(cfg, st, frames[0])
  {
    var f := frames[0];
    assert frames[..1] == [f] && [] + [f] == [f];
    RunSnoc(cfg, st, [], f);
    EmptyLeft(Step(cfg, st, f).events);
  }

  lemma EndpointNow(cfg: Config, st: State, frames: seq<Frame>, c: Collected)
    requires frames != [] && !frames[0].playing && c == CollectIn(cfg, st, frames)
    requires Step(cfg, st, frames[0]).events != []
    ensures c.ended && c.used == 1 && Agrees(Run(cfg, st, frames[..1]), c)
  {
    CollectStep(cfg, st, frames);
    RunFirst(cfg, st, frames);
  }

  lemma EndpointLater(cfg: Config, st: State, frames: seq<Frame>, next: State, later: Collected)
    requires frames != [] && !frames[0].playing
    requires Step(cfg, st, frames[0]) == Outcome(next, []) && later == CollectIn(cfg, next, frames[1..])
    requires Agrees(Run(cfg, next, frames[1..][..later.used]), later)
    ensures var c := CollectIn(cfg, st, frames);
            c == later.(used := later.used + 1) && Agrees(Run(cfg, st, frames[..c.used]), c)
  {
    CollectStep(cfg, st, frames);
    RunPrefix(cfg, st, frames, later.used);
  }

  /** From any listening state, the loop reaches its first endpoint where the reference stops. */
  lemma {:induction false} FirstEndpoint(cfg: Config, st: State, frames: seq<Frame>) returns (c: Collected)
    requires Listening(frames)
    ensures c == CollectIn(cfg, st, frames) && Agrees(Run(cfg, st, frames[..c.used]), c)
    ensures !c.ended ==> c.used == |frames|
    decreases |frames|
  {
    if frames == [] {
      c := Collected(st.buffer, 0, false);
    } else {
      var now := Step(cfg, st, frames[0]);
      if now.events == [] {
        var later := FirstEndpoint(cfg, now.state, frames[1..]);
        EndpointLater(cfg, st, frames, now.state, later);
        c := later.(used := later.used + 1);
      } else {
        c := CollectIn(cfg, st, frames);
        EndpointNow(cfg, st, frames, c);
      }
    }
  }

  /**
   With no playback, the utterances the loop dispatches are the reference applied to the frames
   after each previous endpoint, for every frame sequence.  With semantic endpointing off both
   limits are the full one, and the reference is `collect_utterance`.
   */
  lemma {:induction false} UtterancesAreCollected(cfg: Config, frames: seq<Frame>)
    requires Listening(frames)
    ensures Audios(Run(cfg, START, frames).events) == Segments(frames, Early(cfg), cfg.fullLimit)
    decreases |frames|
  {
    var c := FirstEndpoint(cfg, START, frames);
    var first, rest := frames[..c.used], frames[c.used..];
    assert frames == first + rest;
    if c.ended {
      UtterancesAreCollected(cfg, rest);
      RunConcat(cfg, START, first, rest);
      var r := Run(cfg, START, first);
      assert (r.events + Run(cfg, START, rest).events)[1..] == Run(cfg, START, rest).events;
    } else {
      assert first == frames;
    }
  }

  // ---------------------------------------------------------------- two silence limits

  ghost predicate SilenceWithin(cfg: Config, events: seq<Event>) {
    forall e :: e in events && e.Utterance? ==> cfg.shortLimit <= e.silence <= cfg.fullLimit
  }

  /** On every run, playback included, each utterance ends between the two limits. */
  lemma {:induction false} SilenceBounds(cfg: Config, st: State, frames: seq<Frame>)
    requires 1 <= cfg.shortLimit <= cfg.fullLimit && st.silence < cfg.fullLimit
    ensures Run(cfg, st, frames).state.silence < cfg.fullLimit
    ensures SilenceWithin(cfg, Run(cfg, st, frames).events)
    decreases |frames|
  {
    if frames != [] {
      SilenceBounds(cfg, st, frames[..|frames| - 1]);
    }
  }

  function SpeechFrames(audio: seq<Frame>): nat {
    if audio == [] then 0 else SpeechFrames(audio[..|audio| - 1]) + if audio[|audio| - 1].isSpeech then 1 else 0
  }

  lemma SpeechSnoc(audio: seq<Frame>, f: Frame)
    ensures SpeechFrames(audio + [f]) == SpeechFrames(audio) + if f.isSpeech then 1 else 0
  {
    assert (audio + [f])[..|audio|] == audio;
  }

  /** A dispatched utterance, with its closing silence and its speech counted right. */
  ghost predicate OnTime(cfg: Config, e: Event) {
    && e.Utterance? && IsUtterance(Early(cfg), cfg.fullLimit, e.audio)
    && e.silence == SilentRun(e.audio) && e.speechChunks == SpeechFrames(e.audio)
  }

  ghost predicate Waiting(cfg: Config, st: State) {
    if st.speechStarted then
      && Open(Early(cfg), cfg.fullLimit, st.buffer)
      && st.silence == SilentRun(st.buffer) && st.speechChunks == SpeechFrames(st.buffer)
    else st.buffer == [] && st.silence == 0
  }

  lemma ListenOnTime(cfg: Config, st: State, f: Frame)
    requires Waiting(cfg, st) && !f.playing
    ensures var r := Step(cfg, st, f);
            Waiting(cfg, r.state) && forall e :: e in r.events ==> OnTime(cfg, e)
  {
    if f.isSpeech || st.speechStarted {
      OpenSnoc(Early(cfg), cfg.fullLimit, st.buffer, f);
      SpeechSnoc(st.buffer, f);
    }
  }

  /**
   In every listening run, semantic or not, each utterance ends exactly at the first silent
   frame whose count reaches the limit its live partial calls for.
   */
  lemma {:induction false} EndpointsOnTime(cfg: Config, st: State, frames: seq<Frame>)
    requires Waiting(cfg, st) && Listening(frames)
    ensures var r := Run(cfg, st, frames);
            Waiting(cfg, r.state) && forall e :: e in r.events ==> OnTime(cfg, e)
    decreases |frames|
  {
    if frames != [] {
      var n := |frames| - 1;
      EndpointsOnTime(cfg, st, frames[..n]);
      ListenOnTime(cfg, Run(cfg, st, frames[..n]).state, frames[n]);
    }
  }

  lemma SilentRunGrows(audio: seq<Frame>)
    requires audio != []
    ensures SilentRun(audio) <= SilentRun(audio[..|audio| - 1]) + 1
    ensures !audio[|audio| - 1].isSpeech ==> SilentRun(audio) == SilentRun(audio[..|audio| - 1]) + 1
  {
  }

  /** An utterance ends at the full limit, or before it on a complete partial. */
  lemma EndsAtLimit(short: nat, full: nat, audio: seq<Frame>)
    requires IsUtterance(short, full, audio) && 1 <= short <= full
    ensures short <= SilentRun(audio) <= full
    ensures !audio[|audio| - 1].partialComplete ==> SilentRun(audio) == full
  {
    var before := audio[..|audio| - 1];
    SilentRunGrows(audio);
    assert before[..|before|] == before;
  }

  /** It never went past a silent frame with a complete partial once the short limit was reached. */
  lemma NoCompleteIsPassed(short: nat, full: nat, audio: seq<Frame>, n: nat)
    requires IsUtterance(short, full, audio) && 1 <= short && 0 < n < |audio| && SilentRun(audio[..n]) >= short
    ensures !audio[n - 1].partialComplete
  {
    var before := audio[..|audio| - 1];
    assert before[..n] == audio[..n] && audio[..n][n - 1] == audio[n - 1];
  }

  /**
   With the shipped settings, listening: an utterance ends after 37 silent frames, or after 15 to
   37 if its partial reads as complete by then; and it never went past a silent frame, 15 or more
   in a row, whose partial read as complete.
   */
  lemma DefaultEndpoints(frames: seq<Frame>, e: Event)
    requires Listening(frames) && e in Run(DEFAULT, START, frames).events
    ensures e.Utterance? && e.audio != [] && e.audio[0].isSpeech && e.silence == SilentRun(e.audio)
    ensures if e.audio[|e.audio| - 1].partialComplete then 15 <= e.silence <= 37 else e.silence == 37
    ensures forall n :: 0 < n < |e.audio| && SilentRun(e.audio[..n]) >= 15 ==> !e.audio[n - 1].partialComplete
  {
    EndpointsOnTime(DEFAULT, START, frames);
    assert OnTime(DEFAULT, e) && Early(DEFAULT) == 15 && DEFAULT.fullLimit == 37;
    EndsAtLimit(15, 37, e.audio);
    forall n | 0 < n < |e.audio| && SilentRun(e.audio[..n]) >= 15 ensures !e.audio[n - 1].partialComplete {
      NoCompleteIsPassed(15, 37, e.audio, n);
    }
  }

  /** With the shipped settings every utterance ends after 15 to 37 silent frames. */
  lemma DefaultLimits(frames: seq<Frame>)
    ensures forall e :: e in Run(DEFAULT, START, frames).events && e.Utterance? ==> 15 <= e.silence <= 37
  {
    SilenceBounds(DEFAULT, START, frames);
  }

  // ---------------------------------------------------------------- the utterance of an interruption

  /** While an utterance goes on, listening adds every frame to it. */
  lemma {:induction false} ListeningAppends(cfg: Config, st: State, frames: seq<Frame>)
    requires st.speechStarted && Listening(frames) && Run(cfg, st, frames).events == []
    ensures var t := Run(cfg, st, frames).state;
            t.speechStarted && t.buffer == st.buffer + frames && t.nextIsBargeIn == st.nextIsBargeIn
    decreases |frames|
  {
    if frames == [] {
      assert st.buffer + [] == st.buffer;
    } else {
      var front, f := frames[..|frames| - 1], frames[|frames| - 1];
      ListeningAppends(cfg, st, front);
      AppendsFrame(cfg, Run(cfg, st, front).state, f);
      assert frames == front + [f];
      Assoc(st.buffer, front, [f]);
    }
  }

  lemma AppendsFrame(cfg: Config, st: State, f: Frame)
    requires st.speechStarted && !f.playing
    ensures var now := Step(cfg, st, f);
            if now.events == [] then
              now.state.speechStarted && now.state.buffer == st.buffer + [f] && now.state.nextIsBargeIn == st.nextIsBargeIn
            else
              && |now.events| == 1 && now.events[0].Utterance?
              && now.events[0].audio == st.buffer + [f] && now.events[0].isBargeIn == st.nextIsBargeIn
  {
  }

  /**
   After an interruption the next utterance starts with the frame that triggered it and takes every
   frame from there on to its end, and it is marked as an interruption.
   */
  lemma InterruptionIsCaptured(cfg: Config, st: State, f: Frame, frames: seq<Frame>, last: Frame)
    requires Step(cfg, st, f).events != [] && Step(cfg, st, f).events[0].BargeIn?
    requires Listening(frames) && !last.playing
    requires var after := Run(cfg, Step(cfg, st, f).state, frames);
             after.events == [] && Step(cfg, after.state, last).events != []
    ensures var e := Step(cfg, Run(cfg, Step(cfg, st, f).state, frames).state, last).events[0];
            e.Utterance? && e.audio == [f] + frames + [last] && e.isBargeIn
  {
    var caught := Step(cfg, st, f).state;
    assert caught == Interrupt(f);
    ListeningAppends(cfg, caught, frames);
    AppendsFrame(cfg, Run(cfg, caught, frames).state, last);
  }
}
