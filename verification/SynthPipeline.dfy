/**
 The synth-ahead pipeline (`_run_synth_ahead_pipeline`): a producer that synthesizes chunks and
 a player that sends them, over a buffer of two slots, as an interleaving of atomic steps.
 A step lies between two awaits; what the environment answers is part of the step's label.
 */
module SynthPipeline {
  import opened Text

  /** A nonempty `bytes` object of audio; an empty one is `None` where it can still occur. */
  datatype Frame = Frame(head: int, tail: seq<int>)

  type Chunk = Option<Frame>

  const MAX_SLOTS := 2

  /** An entry of `tts_queue`. */
  datatype Item = Item(sentence: string, isDone: bool)

  /** An entry of `audio_buf`. */
  datatype Slot = Audio(frames: seq<Frame>) | End

  datatype Producer =
    | Pulling                                                   // awaits `tts_queue.get()`
    | Forwarding(sentence: string, forwarded: seq<Frame>)         // first chunk, frames passed on as they arrive
    | PuttingFrame(sentence: string, forwarded: seq<Frame>)       // awaits room for the last forwarded frame
    | Collecting(sentence: string, first: bool, got: seq<Frame>)  // `_synth_chunk_frames`, streaming
    | Batching(sentence: string, first: bool, completed: bool)  // `_synth_chunk_frames`, REST
    | Putting(frames: seq<Frame>)                                 // awaits room for a whole chunk
    | PuttingEnd                                                // awaits room for the end marker
    | Stopped

  datatype Player =
    | Getting                                                   // awaits `audio_buf.get()`
    | Playing(rest: seq<Frame>)                                   // about to look at the next frame
    | Announcing(frame: Frame, rest: seq<Frame>)                    // awaits `on_first_audio`
    | Sending(rest: seq<Frame>)                                   // awaits `send_audio`
    | Finished

  datatype Output = FirstAudio | Sent(frame: Frame)

  datatype Batch = NotAsked | Failed | Answered(audio: Chunk)

  /** What the services answered for one sentence, and what the pipeline made of it. */
  datatype Contribution = Contribution(
    sentence: string, first: bool, heard: seq<Chunk>, completed: bool, batch: Batch, frames: seq<Frame>)

  /** The pipeline, with a history: items pulled, chunks heard in the current stream, contributions. */
  datatype State = State(
    queue: seq<Item>, producer: Producer, firstPending: bool, slots: seq<Slot>,
    player: Player, firstDone: bool, stop: bool,
    pulled: seq<Item>, heard: seq<Chunk>, contributions: seq<Contribution>, output: seq<Output>)

  const INIT: State := State([], Pulling, true, [], Getting, false, false, [], [], [], [])

  datatype ProducerMove =
    | Pull | StreamChunk(chunk: Chunk) | StreamOver(completed: bool) | BatchOver(answer: Batch) | Put

  datatype PlayerMove = Get | Look | Announced | SendDone

  datatype Label = Enqueue(item: Item) | SetStop | Produce(p: ProducerMove) | Play(q: PlayerMove)

  // ---------------------------------------------------------------- steps

  /** The chunk is over: hand its frames to the player, unless there are none or playback was stopped. */
  function Settle(s: State, sentence: string, first: bool, completed: bool, batch: Batch, frames: seq<Frame>): State {
    var kept := if s.stop then [] else frames;
    s.(producer := if kept == [] then Pulling else Putting(kept),
       contributions := s.contributions + [Contribution(sentence, first, s.heard, completed, batch, kept)])
  }

  /** The first chunk's stream is over: recover by `_synth_chunk_frames` if it gave nothing. */
  function EndForwarding(s: State, completed: bool): State
    requires s.producer.Forwarding?
  {
    var p := s.producer;
    if p.forwarded == [] && !s.stop then
      s.(producer := Collecting(p.sentence, true, []), heard := [])
    else
      s.(producer := Pulling,
         contributions := s.contributions
                          + [Contribution(p.sentence, true, s.heard, completed, NotAsked, p.forwarded)])
  }

  /** `_synth_chunk_frames` after its stream: REST if the stream gave nothing usable. */
  function EndCollecting(s: State, completed: bool): State
    requires s.producer.Collecting?
  {
    var p := s.producer;
    if completed && p.got != [] then Settle(s, p.sentence, p.first, true, NotAsked, p.got)
    else if s.stop then Settle(s, p.sentence, p.first, completed, NotAsked, [])
    else s.(producer := Batching(p.sentence, p.first, completed))
  }

  function ProducerPull(s: State): State
    requires s.producer.Pulling? && s.queue != []
  {
    var item := s.queue[0];
    var s := s.(queue := s.queue[1..], pulled := s.pulled + [item], heard := []);
    if item.isDone && item.sentence == [] then s.(producer := PuttingEnd)
    else if s.stop then s.(producer := PuttingEnd)
    else if item.sentence == [] then s
    else if s.firstPending then s.(producer := Forwarding(item.sentence, []), firstPending := false)
    else s.(producer := Collecting(item.sentence, false, []))
  }

  function ProducerChunk(s: State, chunk: Chunk): State
    requires s.producer.Forwarding? || s.producer.Collecting?
  {
    var s := s.(heard := s.heard + [chunk]);
    var p := s.producer;
    if s.stop then
      if p.Forwarding? then EndForwarding(s, true) else EndCollecting(s, true)
    else if chunk.None? then s
    else if p.Forwarding? then s.(producer := PuttingFrame(p.sentence, p.forwarded + [chunk.value]))
    else s.(producer := p.(got := p.got + [chunk.value]))
  }

  function ProducerPut(s: State): State
    requires s.producer.PuttingFrame? || s.producer.Putting? || s.producer.PuttingEnd?
    requires s.producer.PuttingFrame? ==> s.producer.forwarded != []
  {
    match s.producer
    case PuttingFrame(sentence, fs) =>
      s.(slots := s.slots + [Audio([fs[|fs| - 1]])], producer := Forwarding(sentence, fs))
    case Putting(fs) => s.(slots := s.slots + [Audio(fs)], producer := Pulling)
    case PuttingEnd => s.(slots := s.slots + [End], producer := Stopped)
  }

  function PlayerGet(s: State): State
    requires s.player.Getting? && s.slots != []
  {
    var slot := s.slots[0];
    s.(slots := s.slots[1..],
       player := if slot.End? || s.stop then Finished else Playing(slot.frames))
  }

  function PlayerLook(s: State): State
    requires s.player.Playing?
  {
    var rest := s.player.rest;
    if rest == [] then s.(player := Getting)
    else if s.stop then s.(player := Finished)
    else if !s.firstDone then
      s.(player := Announcing(rest[0], rest[1..]), firstDone := true, output := s.output + [FirstAudio])
    else
      s.(player := Sending(rest[1..]), output := s.output + [Sent(rest[0])])
  }

  function BatchFrames(answer: Batch): seq<Frame> {
    if answer.Answered? && answer.audio.Some? then [answer.audio.value] else []
  }

  /** A move of the producer; one that does not apply leaves the state alone. */
  function ProducerStep(s: State, m: ProducerMove): State {
    match m
    case Pull => if s.producer.Pulling? && s.queue != [] then ProducerPull(s) else s
    case StreamChunk(c) => if s.producer.Forwarding? || s.producer.Collecting? then ProducerChunk(s, c) else s
    case StreamOver(completed) =>
      if s.producer.Forwarding? then EndForwarding(s, completed)
      else if s.producer.Collecting? then EndCollecting(s, completed) else s
    case BatchOver(answer) =>
      if s.producer.Batching? && !answer.NotAsked? then
        Settle(s, s.producer.sentence, s.producer.first, s.producer.completed, answer, BatchFrames(answer))
      else s
    case Put =>
      if |s.slots| < MAX_SLOTS
         && (|| s.producer.Putting? || s.producer.PuttingEnd?
             || (s.producer.PuttingFrame? && s.producer.forwarded != []))
      then ProducerPut(s) else s
  }

  /** A move of the player. */
  function PlayerStep(s: State, m: PlayerMove): State {
    match m
    case Get => if s.player.Getting? && s.slots != [] then PlayerGet(s) else s
    case Look => if s.player.Playing? then PlayerLook(s) else s
    case Announced =>
      if s.player.Announcing? then
        s.(player := Sending(s.player.rest), output := s.output + [Sent(s.player.frame)])
      else s
    case SendDone => if s.player.Sending? then s.(player := Playing(s.player.rest)) else s
  }

  function Step(s: State, l: Label): State {
    match l
    case Enqueue(item) => s.(queue := s.queue + [item])
    case SetStop => s.(stop := true)
    case Produce(m) => ProducerStep(s, m)
    case Play(m) => PlayerStep(s, m)
  }

  /** Every interleaving: labels in any order, from any state. */
  function Run(s: State, labels: seq<Label>): State {
    if labels == [] then s else Step(Run(s, labels[..|labels| - 1]), labels[|labels| - 1])
  }

  // ---------------------------------------------------------------- what the frames go through

  /** The frames sent so far. */
  function SentFrames(output: seq<Output>): seq<Frame> {
    if output == [] then [] else
    var last := output[|output| - 1];
    SentFrames(output[..|output| - 1]) + if last.Sent? then [last.frame] else []
  }

  function SlotFrames(slots: seq<Slot>): seq<Frame> {
    if slots == [] then [] else (if slots[0].Audio? then slots[0].frames else []) + SlotFrames(slots[1..])
  }

  /** Frames the player holds and has not sent. */
  function Held(p: Player): seq<Frame> {
    match p
    case Playing(rest) => rest
    case Announcing(f, rest) => [f] + rest
    case Sending(rest) => rest
    case _ => []
  }

  /** Frames the producer has decided to hand over but that are not in the buffer yet. */
  function Pending(p: Producer): seq<Frame> {
    match p
    case PuttingFrame(_, fs) => if fs == [] then [] else [fs[|fs| - 1]]
    case Putting(fs) => fs
    case _ => []
  }

  /** Frames of the first chunk that were forwarded while its stream is still open. */
  function Partial(p: Producer): seq<Frame> {
    match p
    case Forwarding(_, fs) => fs
    case PuttingFrame(_, fs) => fs
    case _ => []
  }

  function ContributedFrames(cs: seq<Contribution>): seq<Frame> {
    if cs == [] then [] else ContributedFrames(cs[..|cs| - 1]) + cs[|cs| - 1].frames
  }

  /** All frames produced so far, in chunk order. */
  function Produced(s: State): seq<Frame> {
    ContributedFrames(s.contributions) + Partial(s.producer)
  }

  function NonEmpty(chunks: seq<Chunk>): seq<Frame> {
    if chunks == [] then [] else
    var last := chunks[|chunks| - 1];
    NonEmpty(chunks[..|chunks| - 1]) + if last.None? then [] else [last.value]
  }

  lemma SentSnoc(output: seq<Output>, o: Output)
    ensures SentFrames(output + [o]) == SentFrames(output) + if o.Sent? then [o.frame] else []
  {
    assert (output + [o])[..|output|] == output;
  }

  lemma {:induction false} SlotSnoc(slots: seq<Slot>, slot: Slot)
    ensures SlotFrames(slots + [slot]) == SlotFrames(slots) + if slot.Audio? then slot.frames else []
  {
    if slots == [] {
      assert slots + [slot] == [slot];
      assert SlotFrames([slot]) == (if slot.Audio? then slot.frames else []) + SlotFrames([]);
    } else {
      SlotSnoc(slots[1..], slot);
      assert (slots + [slot])[1..] == slots[1..] + [slot];
      Assoc(if slots[0].Audio? then slots[0].frames else [], SlotFrames(slots[1..]),
            if slot.Audio? then slot.frames else []);
    }
  }

  lemma ContributedSnoc(cs: seq<Contribution>, c: Contribution)
    ensures ContributedFrames(cs + [c]) == ContributedFrames(cs) + c.frames
  {
    assert (cs + [c])[..|cs|] == cs;
  }

  lemma NonEmptySnoc(chunks: seq<Chunk>, c: Chunk)
    ensures NonEmpty(chunks + [c]) == NonEmpty(chunks) + if c.None? then [] else [c.value]
  {
    assert (chunks + [c])[..|chunks|] == chunks;
  }

  // ---------------------------------------------------------------- buffer, order and completeness

  /** The buffer is bounded and the end marker is last in it. */
  predicate BufferInv(s: State) {
    && |s.slots| <= 2
    && (forall i :: 0 <= i < |s.slots| && s.slots[i].End? ==> i == |s.slots| - 1 && s.producer.Stopped?)
    && (s.producer.Stopped? && !s.player.Finished? ==> s.slots != [] && s.slots[|s.slots| - 1].End?)
    && (s.player.Finished? && !s.stop ==> s.producer.Stopped? && s.slots == [])
    && (s.producer.PuttingFrame? ==> s.producer.forwarded != [])
  }

  lemma PutBuffer(s: State)
    requires BufferInv(s) && |s.slots| < MAX_SLOTS
    requires s.producer.PuttingFrame? || s.producer.Putting? || s.producer.PuttingEnd?
    ensures BufferInv(ProducerPut(s))
  {
  }

  lemma ProducerBuffer(s: State, m: ProducerMove)
    requires BufferInv(s)
    ensures BufferInv(ProducerStep(s, m))
  {
    if m.Put? {
      if ProducerStep(s, m) != s {
        PutBuffer(s);
      }
    } else {
      ProducerKeepsBuffer(s, m);
    }
  }

  /** `t` differs from `s` on the producer's side only, and the producer is not done. */
  predicate OnlySynthesizes(s: State, t: State) {
    && t.slots == s.slots && t.player == s.player && t.stop == s.stop
    && t.output == s.output && t.firstDone == s.firstDone
    && t.producer.Stopped? == s.producer.Stopped?
    && (t.producer.PuttingFrame? && t.producer != s.producer ==> t.producer.forwarded != [])
  }

  lemma StreamEndSynthesizes(s: State, completed: bool)
    ensures s.producer.Forwarding? ==> OnlySynthesizes(s, EndForwarding(s, completed))
    ensures s.producer.Collecting? ==> OnlySynthesizes(s, EndCollecting(s, completed))
  {
  }

  lemma ProducerKeepsBuffer(s: State, m: ProducerMove)
    requires !m.Put?
    ensures OnlySynthesizes(s, ProducerStep(s, m))
  {
    match m
    case Pull =>
    case StreamChunk(c) => StreamEndSynthesizes(s.(heard := s.heard + [c]), true);
    case StreamOver(completed) => StreamEndSynthesizes(s, completed);
    case BatchOver(answer) =>
  }

  lemma GetBuffer(s: State)
    requires BufferInv(s) && s.player.Getting? && s.slots != []
    ensures BufferInv(PlayerGet(s))
  {
    var t := PlayerGet(s);
    assert forall i :: 0 <= i < |t.slots| ==> t.slots[i] == s.slots[i + 1];
  }

  lemma PlayerBuffer(s: State, m: PlayerMove)
    requires BufferInv(s)
    ensures BufferInv(PlayerStep(s, m))
  {
    match m
    case Get => if s.player.Getting? && s.slots != [] { GetBuffer(s); }
    case Look =>
    case Announced =>
    case SendDone =>
  }

  lemma BufferStep(s: State, l: Label)
    requires BufferInv(s)
    ensures BufferInv(Step(s, l))
  {
    match l
    case Enqueue(_) =>
    case SetStop =>
    case Produce(m) => ProducerBuffer(s, m);
    case Play(m) => PlayerBuffer(s, m);
  }

  /** Frames on their way from the producer to the caller's ear. */
  function InFlight(s: State): seq<Frame> {
    Held(s.player) + (SlotFrames(s.slots) + Pending(s.producer))
  }

  /** Nothing is lost, duplicated or reordered between producing and sending. */
  predicate FlowInv(s: State) {
    && (!s.player.Finished? ==> Produced(s) == SentFrames(s.output) + InFlight(s))
    && SentFrames(s.output) <= Produced(s)
    && (s.player.Finished? && !s.stop ==> Produced(s) == SentFrames(s.output))
  }

  /** A step that moves frames within the pipeline, producing and sending none. */
  lemma FlowKept(s: State, t: State)
    requires FlowInv(s) && Produced(t) == Produced(s) && SentFrames(t.output) == SentFrames(s.output)
    requires !t.player.Finished? ==> !s.player.Finished? && InFlight(t) == InFlight(s)
    requires t.player.Finished? && !t.stop ==> s.player.Finished? || InFlight(s) == []
    requires s.stop ==> t.stop
    ensures FlowInv(t)
  {
  }

  /** A step that produces `more` and leaves it pending. */
  lemma FlowProduces(s: State, t: State, more: seq<Frame>)
    requires FlowInv(s) && t.output == s.output && t.player == s.player && t.stop == s.stop
    requires Produced(t) == Produced(s) + more
    requires s.player.Finished? && !s.stop ==> more == []
    requires InFlight(t) == InFlight(s) + more
    ensures FlowInv(t)
  {
    Assoc(SentFrames(s.output), InFlight(s), more);
  }

  lemma SettleFlow(s: State, sentence: string, first: bool, completed: bool, batch: Batch, frames: seq<Frame>)
    requires FlowInv(s) && BufferInv(s) && (s.producer.Collecting? || s.producer.Batching?)
    ensures FlowInv(Settle(s, sentence, first, completed, batch, frames))
  {
    var t := Settle(s, sentence, first, completed, batch, frames);
    var kept := if s.stop then [] else frames;
    ContributedSnoc(s.contributions, t.contributions[|s.contributions|]);
    assert Produced(s) == ContributedFrames(s.contributions);
    assert Produced(t) == Produced(s) + kept;
    assert Pending(s.producer) == [] && Pending(t.producer) == kept;
    FlightGrows(Held(s.player), SlotFrames(s.slots), kept);
    FlowProduces(s, t, kept);
  }

  lemma FlightGrows(held: seq<Frame>, slots: seq<Frame>, more: seq<Frame>)
    ensures held + (slots + more) == (held + (slots + [])) + more
  {
    assert slots + [] == slots;
    Assoc(held, slots, more);
  }

  /** Closing a forwarded chunk moves its frames from the open stream to the contributions. */
  lemma ReportFlow(s: State, t: State, c: Contribution)
    requires FlowInv(s) && s.producer.Forwarding? && c.frames == s.producer.forwarded
    requires t == s.(producer := Pulling, contributions := s.contributions + [c])
    ensures FlowInv(t)
  {
    ContributedSnoc(s.contributions, c);
    assert Produced(t) == Produced(s) + [];
    FlowKept(s, t);
  }

  lemma EndForwardingFlow(s: State, completed: bool)
    requires FlowInv(s) && BufferInv(s) && s.producer.Forwarding?
    ensures FlowInv(EndForwarding(s, completed))
  {
    var t := EndForwarding(s, completed);
    if t.producer.Pulling? {
      ReportFlow(s, t, t.contributions[|s.contributions|]);
    } else {
      FlowKept(s, t);
    }
  }

  lemma EndCollectingFlow(s: State, completed: bool)
    requires FlowInv(s) && BufferInv(s) && s.producer.Collecting?
    ensures FlowInv(EndCollecting(s, completed))
  {
    var p := s.producer;
    if completed && p.got != [] {
      SettleFlow(s, p.sentence, p.first, true, NotAsked, p.got);
    } else if s.stop {
      SettleFlow(s, p.sentence, p.first, completed, NotAsked, []);
    } else {
      FlowKept(s, EndCollecting(s, completed));
    }
  }

  lemma NewChunkFlow(s: State, frame: Frame)
    requires FlowInv(s) && BufferInv(s) && !s.stop
    requires s.producer.Forwarding? || s.producer.Collecting?
    ensures var p := s.producer;
            FlowInv(if p.Forwarding? then s.(producer := PuttingFrame(p.sentence, p.forwarded + [frame]))
                    else s.(producer := p.(got := p.got + [frame])))
  {
    var p := s.producer;
    if p.Forwarding? {
      var t := s.(producer := PuttingFrame(p.sentence, p.forwarded + [frame]));
      Assoc(ContributedFrames(s.contributions), p.forwarded, [frame]);
      Assoc(SlotFrames(s.slots), Pending(p), [frame]);
      Assoc(Held(s.player), SlotFrames(s.slots) + Pending(p), [frame]);
      assert [] + [frame] == [frame];
      FlowProduces(s, t, [frame]);
    } else {
      FlowKept(s, s.(producer := p.(got := p.got + [frame])));
    }
  }

  lemma ChunkFlow(s: State, chunk: Chunk)
    requires FlowInv(s) && BufferInv(s) && (s.producer.Forwarding? || s.producer.Collecting?)
    ensures FlowInv(ProducerChunk(s, chunk))
  {
    var h := s.(heard := s.heard + [chunk]);
    FlowKept(s, h);
    if s.stop {
      if s.producer.Forwarding? {
        EndForwardingFlow(h, true);
      } else {
        EndCollectingFlow(h, true);
      }
    } else if chunk.Some? {
      NewChunkFlow(h, chunk.value);
    }
  }

  lemma PutFlow(s: State)
    requires FlowInv(s) && BufferInv(s)
    requires s.producer.PuttingFrame? || s.producer.Putting? || s.producer.PuttingEnd?
    ensures FlowInv(ProducerPut(s))
  {
    var t := ProducerPut(s);
    var slot := t.slots[|s.slots|];
    SlotSnoc(s.slots, slot);
    assert Pending(s.producer) == if slot.Audio? then slot.frames else [];
    assert SlotFrames(t.slots) + [] == SlotFrames(t.slots);
    assert InFlight(t) == InFlight(s);
    FlowKept(s, t);
  }

  lemma GetFlow(s: State)
    requires FlowInv(s) && BufferInv(s) && s.player.Getting? && s.slots != []
    ensures FlowInv(PlayerGet(s))
  {
    var t := PlayerGet(s);
    if s.slots[0].End? {
      assert s.slots == [End];
      assert SlotFrames(s.slots) == [] + SlotFrames([]);
      assert InFlight(s) == [];
    } else {
      Assoc(s.slots[0].frames, SlotFrames(t.slots), Pending(s.producer));
      assert InFlight(s) == [] + (SlotFrames(s.slots) + Pending(s.producer));
    }
    FlowKept(s, t);
  }

  /** The player takes the next frame and sends it: it moves from in flight to sent. */
  lemma FlowSends(s: State, t: State, frame: Frame)
    requires FlowInv(s) && !s.player.Finished? && !t.player.Finished?
    requires t.output == s.output + [Sent(frame)] && Produced(t) == Produced(s)
    requires InFlight(s) == [frame] + InFlight(t)
    ensures FlowInv(t)
  {
    SentSnoc(s.output, Sent(frame));
    Assoc(SentFrames(s.output), [frame], InFlight(t));
  }

  /** Taking the frame at the head of a chunk. */
  lemma TakeFrame(rest: seq<Frame>, behind: seq<Frame>)
    requires rest != []
    ensures rest == [rest[0]] + rest[1..]
    ensures rest + behind == [rest[0]] + (rest[1..] + behind)
  {
    Assoc([rest[0]], rest[1..], behind);
  }

  lemma AnnounceFlow(s: State)
    requires FlowInv(s) && s.player.Playing? && s.player.rest != [] && !s.stop && !s.firstDone
    ensures FlowInv(PlayerLook(s))
  {
    TakeFrame(s.player.rest, SlotFrames(s.slots) + Pending(s.producer));
    SentSnoc(s.output, FirstAudio);
    FlowKept(s, PlayerLook(s));
  }

  lemma SendFlow(s: State)
    requires FlowInv(s) && s.player.Playing? && s.player.rest != [] && !s.stop && s.firstDone
    ensures FlowInv(PlayerLook(s))
  {
    TakeFrame(s.player.rest, SlotFrames(s.slots) + Pending(s.producer));
    FlowSends(s, PlayerLook(s), s.player.rest[0]);
  }

  lemma LookFlow(s: State)
    requires FlowInv(s) && s.player.Playing?
    ensures FlowInv(PlayerLook(s))
  {
    if s.player.rest == [] || s.stop {
      FlowKept(s, PlayerLook(s));
    } else if s.firstDone {
      SendFlow(s);
    } else {
      AnnounceFlow(s);
    }
  }

  lemma PullFlow(s: State)
    requires FlowInv(s) && s.producer.Pulling? && s.queue != []
    ensures FlowInv(ProducerPull(s))
  {
    PullMovesNothing(s);
    FlowKept(s, ProducerPull(s));
  }

  lemma PullMovesNothing(s: State)
    requires s.producer.Pulling? && s.queue != []
    ensures var t := ProducerPull(s);
            && t.contributions == s.contributions && Partial(t.producer) == [] && Pending(t.producer) == []
            && t.slots == s.slots && t.player == s.player && t.output == s.output && t.stop == s.stop
  {
  }

  lemma StreamOverFlow(s: State, completed: bool)
    requires FlowInv(s) && BufferInv(s)
    ensures FlowInv(ProducerStep(s, StreamOver(completed)))
  {
    if s.producer.Forwarding? {
      EndForwardingFlow(s, completed);
    } else if s.producer.Collecting? {
      EndCollectingFlow(s, completed);
    }
  }

  lemma BatchOverFlow(s: State, answer: Batch)
    requires FlowInv(s) && BufferInv(s)
    ensures FlowInv(ProducerStep(s, BatchOver(answer)))
  {
    if s.producer.Batching? {
      SettleFlow(s, s.producer.sentence, s.producer.first, s.producer.completed, answer, BatchFrames(answer));
    }
  }

  lemma ProducerFlow(s: State, m: ProducerMove)
    requires FlowInv(s) && BufferInv(s)
    ensures FlowInv(ProducerStep(s, m))
  {
    match m
    case Pull => if s.producer.Pulling? && s.queue != [] { PullFlow(s); }
    case StreamChunk(c) => if s.producer.Forwarding? || s.producer.Collecting? { ChunkFlow(s, c); }
    case StreamOver(completed) => StreamOverFlow(s, completed);
    case BatchOver(answer) => BatchOverFlow(s, answer);
    case Put =>
      if s.producer.PuttingFrame? || s.producer.Putting? || s.producer.PuttingEnd? {
        PutFlow(s);
      }
  }

  lemma PlayerFlow(s: State, m: PlayerMove)
    requires FlowInv(s) && BufferInv(s)
    ensures FlowInv(PlayerStep(s, m))
  {
    var t := PlayerStep(s, m);
    if t != s {
      match m
      case Get => GetFlow(s);
      case Look => LookFlow(s);
      case Announced =>
        Assoc([s.player.frame], s.player.rest, SlotFrames(s.slots) + Pending(s.producer));
        FlowSends(s, t, s.player.frame);
      case SendDone => FlowKept(s, t);
    }
  }

  lemma FlowStep(s: State, l: Label)
    requires FlowInv(s) && BufferInv(s)
    ensures FlowInv(Step(s, l))
  {
    match l
    case Enqueue(_) => FlowKept(s, Step(s, l));
    case SetStop => FlowKept(s, Step(s, l));
    case Produce(m) => ProducerFlow(s, m);
    case Play(m) => PlayerFlow(s, m);
  }

  /** Over every interleaving: at most two slots, and what is sent is a prefix of what is produced. */
  lemma {:induction false} SentInOrder(labels: seq<Label>)
    ensures BufferInv(Run(INIT, labels)) && FlowInv(Run(INIT, labels))
  {
    if labels != [] {
      SentInOrder(labels[..|labels| - 1]);
      BufferStep(Run(INIT, labels[..|labels| - 1]), labels[|labels| - 1]);
      FlowStep(Run(INIT, labels[..|labels| - 1]), labels[|labels| - 1]);
    }
  }

  // ---------------------------------------------------------------- first audio

  /** First audio is reported once, before any frame. */
  predicate OutputInv(s: State) {
    && (s.firstDone <==> s.output != [])
    && (s.output != [] ==> s.output[0].FirstAudio?)
    && (forall i :: 1 <= i < |s.output| ==> s.output[i].Sent?)
    && (s.player.Announcing? ==> |s.output| == 1)
    && (s.player.Sending? ==> s.firstDone)
  }

  lemma PlayerOutput(s: State, m: PlayerMove)
    requires OutputInv(s)
    ensures OutputInv(PlayerStep(s, m))
  {
  }

  lemma OutputStep(s: State, l: Label)
    requires OutputInv(s)
    ensures OutputInv(Step(s, l))
  {
    match l
    case Enqueue(_) =>
    case SetStop =>
    case Produce(m) => ProducerSilent(s, m);
    case Play(m) => PlayerOutput(s, m);
  }

  lemma ProducerSilent(s: State, m: ProducerMove)
    ensures var t := ProducerStep(s, m);
            t.output == s.output && t.player == s.player && t.firstDone == s.firstDone && t.stop == s.stop
  {
    if !m.Put? {
      ProducerKeepsBuffer(s, m);
    }
  }

  lemma {:induction false} FirstAudioFirst(labels: seq<Label>)
    ensures OutputInv(Run(INIT, labels))
  {
    if labels != [] {
      FirstAudioFirst(labels[..|labels| - 1]);
      OutputStep(Run(INIT, labels[..|labels| - 1]), labels[|labels| - 1]);
    }
  }

  // ---------------------------------------------------------------- barge-in

  /** The frame, if any, that the player has committed to and not handed over yet. */
  function Committed(p: Player): seq<Frame> {
    if p.Announcing? then [p.frame] else []
  }

  lemma StoppedStep(s: State, l: Label)
    requires s.stop
    ensures var t := Step(s, l);
            && t.stop && Produced(t) == Produced(s)
            && SentFrames(t.output) + Committed(t.player) == SentFrames(s.output) + Committed(s.player)
            && |Held(t.player)| <= |Held(s.player)|
  {
    match l
    case Enqueue(_) =>
    case SetStop =>
    case Produce(m) =>
      ProducerSilent(s, m);
      StoppedProducer(s, m);
    case Play(m) => StoppedPlayer(s, m);
  }

  lemma StoppedPlayer(s: State, m: PlayerMove)
    requires s.stop
    ensures var t := PlayerStep(s, m);
            && t.stop && t.producer == s.producer && t.contributions == s.contributions
            && SentFrames(t.output) + Committed(t.player) == SentFrames(s.output) + Committed(s.player)
            && |Held(t.player)| <= |Held(s.player)|
  {
    var t := PlayerStep(s, m);
    if m.Announced? && s.player.Announcing? {
      SentSnoc(s.output, Sent(s.player.frame));
      assert SentFrames(t.output) + [] == SentFrames(t.output);
    } else {
      assert t.output == s.output && Committed(t.player) == Committed(s.player);
    }
  }

  lemma StoppedSettle(s: State, sentence: string, first: bool, completed: bool, batch: Batch, frames: seq<Frame>)
    requires s.stop && (s.producer.Collecting? || s.producer.Batching?)
    ensures Produced(Settle(s, sentence, first, completed, batch, frames)) == Produced(s)
  {
    ContributedSnoc(s.contributions, Contribution(sentence, first, s.heard, completed, batch, []));
  }

  lemma StoppedStream(s: State, completed: bool)
    requires s.stop
    ensures s.producer.Forwarding? ==> Produced(EndForwarding(s, completed)) == Produced(s)
    ensures s.producer.Collecting? ==> Produced(EndCollecting(s, completed)) == Produced(s)
  {
    var p := s.producer;
    if p.Forwarding? {
      ContributedSnoc(s.contributions,
                      Contribution(p.sentence, true, s.heard, completed, NotAsked, p.forwarded));
    } else if p.Collecting? {
      var whole := completed && p.got != [];
      StoppedSettle(s, p.sentence, p.first, whole || completed, NotAsked, if whole then p.got else []);
    }
  }

  lemma StoppedBatch(s: State, answer: Batch)
    requires s.stop
    ensures Produced(ProducerStep(s, BatchOver(answer))) == Produced(s)
  {
    if s.producer.Batching? {
      StoppedSettle(s, s.producer.sentence, s.producer.first, s.producer.completed, answer, BatchFrames(answer));
    }
  }

  lemma StoppedChunk(s: State, c: Chunk)
    requires s.stop
    ensures Produced(ProducerStep(s, StreamChunk(c))) == Produced(s)
  {
    StoppedStream(s.(heard := s.heard + [c]), true);
  }

  lemma StoppedProducer(s: State, m: ProducerMove)
    requires s.stop
    ensures Produced(ProducerStep(s, m)) == Produced(s)
  {
    match m
    case Pull =>
    case StreamChunk(c) => StoppedChunk(s, c);
    case StreamOver(completed) => StoppedStream(s, completed);
    case BatchOver(answer) => StoppedBatch(s, answer);
    case Put =>
  }

  /**
   Once stop is set nothing more is produced, and the only frame that can still go out is the
   one the player had already committed to; the player takes no further frames on.
   */
  lemma {:induction false} StopSilences(s: State, labels: seq<Label>)
    requires s.stop
    ensures var t := Run(s, labels);
            && t.stop && Produced(t) == Produced(s)
            && SentFrames(t.output) + Committed(t.player) == SentFrames(s.output) + Committed(s.player)
            && |Held(t.player)| <= |Held(s.player)|
    decreases |labels|
  {
    if labels != [] {
      StopSilences(s, labels[..|labels| - 1]);
      StoppedStep(Run(s, labels[..|labels| - 1]), labels[|labels| - 1]);
    }
  }

  /** Sentences taken up so far: reported, and in work. */
  function TakenUp(s: State): nat {
    |s.contributions| + |Current(s.producer)|
  }

  lemma StoppedTakesUp(s: State, l: Label)
    requires s.stop
    ensures TakenUp(Step(s, l)) == TakenUp(s)
  {
    match l
    case Enqueue(_) =>
    case SetStop =>
    case Produce(m) =>
      if !m.Pull? {
        ProducerReports(s, m);
      }
    case Play(m) => PlayerKeepsProducer(s, m);
  }

  /** Once stop is set no further sentence is taken up, however many are queued. */
  lemma {:induction false} StopTakesUpNothing(s: State, labels: seq<Label>)
    requires s.stop
    ensures TakenUp(Run(s, labels)) == TakenUp(s)
    decreases |labels|
  {
    if labels != [] {
      StopTakesUpNothing(s, labels[..|labels| - 1]);
      StopSilences(s, labels[..|labels| - 1]);
      StoppedTakesUp(Run(s, labels[..|labels| - 1]), labels[|labels| - 1]);
    }
  }

  // ---------------------------------------------------------------- what a chunk contributes

  /** The frames of the batch answer, if one was asked for and held audio. */
  predicate IsBatchAudio(frames: seq<Frame>, batch: Batch) {
    match batch
    case Answered(Some(f)) => frames == [f]
    case _ => frames == []
  }

  /**
   Contribution number `i` is a complete stream, or one complete batch answer after a stream that
   broke or gave nothing, or nothing; only the very first may be a stream that broke off.
   */
  predicate Whole(c: Contribution, i: nat) {
    var heard := NonEmpty(c.heard);
    if c.batch.NotAsked? then
      c.frames == heard && heard != [] && (c.completed || i == 0)
    else
      IsBatchAudio(c.frames, c.batch) && (!c.completed || heard == [])
  }

  predicate AllWhole(cs: seq<Contribution>) {
    forall i :: 0 <= i < |cs| ==> Whole(cs[i], i)
  }

  predicate ChunkInv(s: State) {
    && AllWhole(s.contributions)
    && match s.producer
       case Forwarding(_, fs) => fs == NonEmpty(s.heard)
       case PuttingFrame(_, fs) => fs == NonEmpty(s.heard)
       case Collecting(_, _, got) => got == NonEmpty(s.heard)
       case Batching(_, _, completed) => completed ==> NonEmpty(s.heard) == []
       case _ => true
  }

  /** The first sentence, and no other, is forwarded frame by frame and marked as the first. */
  predicate FirstInv(s: State) {
    && (forall i :: 0 <= i < |s.contributions| ==> (s.contributions[i].first <==> i == 0))
    && (s.firstPending <==> s.contributions == [] && Current(s.producer) == [])
    && match s.producer
       case Forwarding(_, _) => s.contributions == []
       case PuttingFrame(_, _) => s.contributions == []
       case Collecting(_, first, _) => first <==> s.contributions == []
       case Batching(_, first, _) => first <==> s.contributions == []
       case _ => true
  }

  lemma StreamEndFirst(s: State, completed: bool)
    requires FirstInv(s)
    ensures s.producer.Forwarding? ==> FirstInv(EndForwarding(s, completed))
    ensures s.producer.Collecting? ==> FirstInv(EndCollecting(s, completed))
  {
  }

  lemma ProducerFirst(s: State, m: ProducerMove)
    requires FirstInv(s)
    ensures FirstInv(ProducerStep(s, m))
  {
    match m
    case Pull =>
    case StreamChunk(c) => StreamEndFirst(s.(heard := s.heard + [c]), true);
    case StreamOver(completed) => StreamEndFirst(s, completed);
    case BatchOver(answer) =>
    case Put =>
  }

  lemma FirstStep(s: State, l: Label)
    requires FirstInv(s)
    ensures FirstInv(Step(s, l))
  {
    match l
    case Enqueue(_) =>
    case SetStop =>
    case Produce(m) => ProducerFirst(s, m);
    case Play(m) => PlayerKeepsProducer(s, m);
  }

  /** Over every run, barge-in included: exactly the first contribution was forwarded as it came. */
  lemma {:induction false} OnlyFirstIsForwarded(labels: seq<Label>)
    ensures FirstInv(Run(INIT, labels))
  {
    if labels != [] {
      OnlyFirstIsForwarded(labels[..|labels| - 1]);
      FirstStep(Run(INIT, labels[..|labels| - 1]), labels[|labels| - 1]);
    }
  }

  /** A sentence that is pulled, and a stream that is opened again, start with nothing heard; what arrives is heard. */
  lemma HearingStarts(s: State, m: ProducerMove)
    ensures var t := ProducerStep(s, m);
            && (m.Pull? && t != s ==> t.heard == [])
            && (s.producer.Forwarding? && t.producer.Collecting? ==>
                  t.producer == Collecting(s.producer.sentence, true, []) && t.heard == [])
            && (m.StreamChunk? && (s.producer.Forwarding? || s.producer.Collecting?) ==>
                  t.heard == s.heard + [m.chunk])
  {
  }

  /** Contribution `c`, made by move `m` in state `s`, says what the services did. */
  predicate Truthful(s: State, m: ProducerMove, c: Contribution) {
    match m
    case StreamChunk(chunk) => c.heard == s.heard + [chunk] && c.batch == NotAsked && s.stop
    case StreamOver(completed) => c.heard == s.heard && c.completed == completed && c.batch == NotAsked
    case BatchOver(answer) =>
      c.heard == s.heard && s.producer.Batching? && c.completed == s.producer.completed && c.batch == answer
    case _ => false
  }

  /** Move `m` reports at most one contribution, a truthful one. */
  predicate ReportsTruth(s: State, m: ProducerMove, t: State) {
    var n := |s.contributions|;
    t.contributions == s.contributions
    || (|t.contributions| == n + 1 && t.contributions[..n] == s.contributions && Truthful(s, m, t.contributions[n]))
  }

  lemma ForwardingOverIsTrue(s: State, completed: bool)
    requires s.producer.Forwarding?
    ensures ReportsTruth(s, StreamOver(completed), EndForwarding(s, completed))
  {
  }

  lemma StreamOverIsTrue(s: State, completed: bool)
    ensures var t := ProducerStep(s, StreamOver(completed));
            && ReportsTruth(s, StreamOver(completed), t)
            && (t.producer.Batching? && t != s ==> t.producer.completed == completed && t.heard == s.heard)
  {
    if s.producer.Forwarding? {
      ForwardingOverIsTrue(s, completed);
    }
  }

  lemma StreamChunkIsTrue(s: State, c: Chunk)
    ensures ReportsTruth(s, StreamChunk(c), ProducerStep(s, StreamChunk(c)))
  {
  }

  /**
   The history says what the services did: a contribution carries what was heard since its
   sentence was pulled or its stream was opened again, how the stream ended, and the batch answer.
   */
  lemma HistoryIsFaithful(s: State, m: ProducerMove)
    ensures ReportsTruth(s, m, ProducerStep(s, m))
    ensures m.StreamOver? ==>
              var t := ProducerStep(s, m);
              t.producer.Batching? && t != s ==> t.producer.completed == m.completed && t.heard == s.heard
  {
    match m
    case Pull =>
    case StreamChunk(c) => StreamChunkIsTrue(s, c);
    case StreamOver(completed) => StreamOverIsTrue(s, completed);
    case BatchOver(_) =>
    case Put =>
  }

  lemma StreamChunks(s: State, c: Chunk)
    requires !s.stop && FirstInv(s) && ChunkInv(s)
    ensures ChunkInv(ProducerStep(s, StreamChunk(c)))
  {
    NonEmptySnoc(s.heard, c);
    assert c.None? ==> NonEmpty(s.heard) + [] == NonEmpty(s.heard);
  }

  lemma StreamEndChunks(s: State, completed: bool)
    requires !s.stop && FirstInv(s) && ChunkInv(s)
    ensures ChunkInv(ProducerStep(s, StreamOver(completed)))
  {
  }

  lemma BatchChunks(s: State, answer: Batch)
    requires !s.stop && FirstInv(s) && ChunkInv(s)
    ensures ChunkInv(ProducerStep(s, BatchOver(answer)))
  {
  }

  lemma ProducerChunks(s: State, m: ProducerMove)
    requires !s.stop && FirstInv(s) && ChunkInv(s)
    ensures ChunkInv(ProducerStep(s, m))
  {
    match m
    case Pull =>
    case StreamChunk(c) => StreamChunks(s, c);
    case StreamOver(completed) => StreamEndChunks(s, completed);
    case BatchOver(answer) => BatchChunks(s, answer);
    case Put =>
  }

  /** What the producer alone writes. */
  lemma PlayerKeepsProducer(s: State, m: PlayerMove)
    ensures var t := PlayerStep(s, m);
            && t.producer == s.producer && t.contributions == s.contributions
            && t.heard == s.heard && t.pulled == s.pulled && t.stop == s.stop
  {
  }

  lemma ChunkStep(s: State, l: Label)
    requires !s.stop && FirstInv(s) && ChunkInv(s)
    ensures ChunkInv(Step(s, l))
  {
    match l
    case Enqueue(_) =>
    case SetStop =>
    case Produce(m) => ProducerChunks(s, m);
    case Play(m) => PlayerKeepsProducer(s, m);
  }

  lemma {:induction false} ChunksAreWhole(labels: seq<Label>)
    requires !Run(INIT, labels).stop
    ensures ChunkInv(Run(INIT, labels))
  {
    if labels != [] {
      var s, l := Run(INIT, labels[..|labels| - 1]), labels[|labels| - 1];
      StopStays(s, l);
      ChunksAreWhole(labels[..|labels| - 1]);
      OnlyFirstIsForwarded(labels[..|labels| - 1]);
      ChunkStep(s, l);
    }
  }

  lemma StopStays(s: State, l: Label)
    ensures s.stop ==> Step(s, l).stop
  {
    if l.Produce? {
      ProducerSilent(s, l.p);
    }
  }

  // ---------------------------------------------------------------- sentence by sentence

  function Sentences(items: seq<Item>): seq<string> {
    if items == [] then [] else
    var last := items[|items| - 1];
    Sentences(items[..|items| - 1]) + if last.sentence == [] then [] else [last.sentence]
  }

  function Contributors(cs: seq<Contribution>): seq<string> {
    seq(|cs|, i requires 0 <= i < |cs| => cs[i].sentence)
  }

  /** The sentence being synthesized. */
  function Current(p: Producer): seq<string> {
    if p.Forwarding? || p.PuttingFrame? || p.Collecting? || p.Batching? then [p.sentence] else []
  }

  /** Each nonempty sentence pulled has contributed, in order, or is being synthesized. */
  predicate SentenceInv(s: State) {
    && Sentences(s.pulled) == Contributors(s.contributions) + Current(s.producer)
    && (s.producer.PuttingEnd? || s.producer.Stopped? ==>
          s.pulled != [] && s.pulled[|s.pulled| - 1] == Item([], true))
  }

  lemma ProducerSentences(s: State, m: ProducerMove)
    requires !s.stop && SentenceInv(s)
    ensures SentenceInv(ProducerStep(s, m))
  {
    if m.Pull? {
      PullSentences(s);
    } else {
      ProducerReports(s, m);
      var t := ProducerStep(s, m);
      if t.contributions != s.contributions {
        var c := t.contributions[|s.contributions|];
        assert Contributors(s.contributions + [c]) == Contributors(s.contributions) + [c.sentence];
        assert Contributors(t.contributions) == Contributors(t.contributions) + [];
      }
    }
  }

  lemma PullSentences(s: State)
    requires !s.stop && SentenceInv(s)
    ensures SentenceInv(ProducerStep(s, Pull))
  {
    if s.producer.Pulling? && s.queue != [] {
      var t, item := ProducerPull(s), s.queue[0];
      PullIs(s);
      SentencesSnoc(s.pulled, item);
      var said := Contributors(s.contributions);
      assert said + [] == said;
    }
  }

  lemma SentencesSnoc(items: seq<Item>, item: Item)
    ensures Sentences(items + [item]) == Sentences(items) + if item.sentence == [] then [] else [item.sentence]
  {
    assert (items + [item])[..|items|] == items;
  }

  lemma PullIs(s: State)
    requires !s.stop && s.producer.Pulling? && s.queue != []
    ensures var t, item := ProducerPull(s), s.queue[0];
            && t.pulled == s.pulled + [item] && t.contributions == s.contributions
            && Current(t.producer) == (if item.sentence == [] then [] else [item.sentence])
            && !t.producer.Stopped? && (t.producer.PuttingEnd? ==> item == Item([], true))
  {
  }

  /** `t` follows `s` with the current sentence's contribution reported, or with no report. */
  predicate Reports(s: State, t: State) {
    && t.pulled == s.pulled
    && (t.producer.PuttingEnd? || t.producer.Stopped? ==> s.producer.PuttingEnd? || s.producer.Stopped?)
    && (|| (t.contributions == s.contributions && Current(t.producer) == Current(s.producer))
        || (&& |t.contributions| == |s.contributions| + 1
            && t.contributions == s.contributions + [t.contributions[|s.contributions|]]
            && Current(s.producer) == [t.contributions[|s.contributions|].sentence]
            && Current(t.producer) == []))
  }

  lemma StreamReports(s: State, completed: bool)
    ensures s.producer.Forwarding? ==> Reports(s, EndForwarding(s, completed))
    ensures s.producer.Collecting? ==> Reports(s, EndCollecting(s, completed))
  {
  }

  /** Past the pull, the producer stays with its sentence until it reports a contribution for it. */
  lemma ProducerReports(s: State, m: ProducerMove)
    requires !m.Pull?
    ensures Reports(s, ProducerStep(s, m))
  {
    match m
    case StreamChunk(c) =>
      if s.stop {
        StreamReports(s.(heard := s.heard + [c]), true);
      }
    case StreamOver(completed) => StreamReports(s, completed);
    case BatchOver(answer) =>
    case Put =>
  }

  lemma SentenceStep(s: State, l: Label)
    requires !s.stop && SentenceInv(s)
    ensures SentenceInv(Step(s, l))
  {
    match l
    case Enqueue(_) =>
    case SetStop =>
    case Produce(m) => ProducerSentences(s, m);
    case Play(m) => PlayerKeepsProducer(s, m);
  }

  lemma {:induction false} SentencesInOrder(labels: seq<Label>)
    requires !Run(INIT, labels).stop
    ensures SentenceInv(Run(INIT, labels))
  {
    if labels != [] {
      var s, l := Run(INIT, labels[..|labels| - 1]), labels[|labels| - 1];
      StopStays(s, l);
      SentencesInOrder(labels[..|labels| - 1]);
      SentenceStep(s, l);
    }
  }

  /**
   A pipeline that finishes without a barge-in has sent, for every nonempty sentence up to the
   end marker and in order, exactly what that sentence contributed, and each contribution is whole.
   */
  lemma FinishedSaysEverything(labels: seq<Label>)
    requires Run(INIT, labels).player.Finished? && !Run(INIT, labels).stop
    ensures var s := Run(INIT, labels);
            && SentFrames(s.output) == ContributedFrames(s.contributions)
            && Contributors(s.contributions) == Sentences(s.pulled)
            && s.pulled != [] && s.pulled[|s.pulled| - 1] == Item([], true)
            && AllWhole(s.contributions)
  {
    SentInOrder(labels);
    SentencesInOrder(labels);
    ChunksAreWhole(labels);
    var s := Run(INIT, labels);
    assert Produced(s) == ContributedFrames(s.contributions) + [];
  }

  // ---------------------------------------------------------------- no deadlock

  /** The pipeline waits for its surroundings: a service's answer or the next queue item. */
  predicate AwaitsOutside(s: State) {
    || s.producer.Forwarding? || s.producer.Collecting? || s.producer.Batching?
    || (s.producer.Pulling? && s.queue == [])
  }

  /** Some move of the two processes changes the state. */
  predicate CanMove(s: State) {
    || ProducerStep(s, Pull) != s || ProducerStep(s, Put) != s
    || PlayerStep(s, Get) != s || PlayerStep(s, Look) != s
    || PlayerStep(s, Announced) != s || PlayerStep(s, SendDone) != s
  }

  lemma NeverStuck(s: State)
    requires BufferInv(s) && !s.player.Finished?
    ensures CanMove(s) || AwaitsOutside(s)
  {
    if s.player.Playing? && s.player.rest != [] {
      assert |s.player.rest[1..]| != |s.player.rest|;
    } else if s.player.Getting? && s.slots != [] {
      assert |s.slots[1..]| != |s.slots|;
    } else if s.producer.Pulling? && s.queue != [] {
      assert |s.queue[1..]| != |s.queue|;
    }
  }

  /** The producer is blocked exactly while both slots are filled: it stays two slots ahead, no less. */
  lemma PutsIff(labels: seq<Label>)
    ensures var s := Run(INIT, labels);
            s.producer.PuttingFrame? || s.producer.Putting? || s.producer.PuttingEnd? ==>
              (ProducerStep(s, Put) != s <==> |s.slots| < 2)
  {
    SentInOrder(labels);
  }

  /** No interleaving deadlocks: an unfinished pipeline moves, or waits for its surroundings. */
  lemma NoDeadlock(labels: seq<Label>)
    requires !Run(INIT, labels).player.Finished?
    ensures CanMove(Run(INIT, labels)) || AwaitsOutside(Run(INIT, labels))
  {
    SentInOrder(labels);
    NeverStuck(Run(INIT, labels));
  }
}
