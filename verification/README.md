# Verified models of the voice-agent platform

This project models, in Dafny, the parts of the platform whose correctness is hardest to see from
the code, and proves what they promise over all inputs, all runs and all interleavings. It has
one module per component.

| module | what it models |
|---|---|
| `SynthPipeline` | the producer and the player of the synth-ahead pipeline over a buffer of two, as an interleaving of steps between awaits |
| `AgentLoop`, `EchoBound`, `Endpointing` | the frame loop: adaptive echo baseline, leaky counter, word gate, utterance endpointing, and the reference `collect_utterance` |
| `ChunkPlanner`, `ConnectorRule`, `StreamWords`, `PlannerLimits`, `Words` | the streaming splitter of a reply into speakable chunks, over Python's notion of words and white space: its rules, its connector scan, words across tokens, and the inputs on which it does less than it says |
| `ReplyStream` | the incremental decoder of the JSON reply and its emit loop |
| `TtsSocket`, `TtsClient` | the reuse of one TTS WebSocket across calls: client, sockets, network and server as steps, and the client's code as runs of these steps |
| `MuLaw`, `MediaFrames` | the G.711 mu-law codec (section 3 of ITU-T G.711, tables 2a and 2b) and the framing around it |
| `Assignment`, `AssignmentBranches`, `Handoff`, `HandoffSla`, `HandoffService` | choice of a rep, tasks, acknowledgement, reassignment and SLA escalation over whole runs |
| `Billing`, `BillingService` | usage metering with idempotency keys, incremental summaries against the fold over the ledger |
| `UploadWorker`, `UploadOrder` | the retry queue for recordings, with enqueues and drains interleaved, and the order of retries |
| `CampaignText` | the text form of campaign lists and objections |
| `Text` | code points, options and concatenation |

Code that updates variables is modelled by classes and loops (`AudioLoop`, `SemanticChunkPlanner`,
`ReplyStreamer`, `StreamClient`, `MediaBridge`, the two `Service` classes, `Worker`), each method tied by its
contract to a function on values; the lemmas are about those functions. Code that runs
concurrently (the pipeline, the socket client, the upload worker) is a step relation, and the
theorems quantify over every sequence of steps. What the surroundings decide is an input: the VAD
verdict, frame energies, whether TTS is playing, what a service answers, when the network closes a
connection, in which order a Go map is walked, and the time.

Texts are sequences of code points, because Python strings may hold lone surrogates. Money,
energies and scores are exact reals.

## Where the code does less than it seems to promise

- A reply character written as a surrogate pair is decoded into two lone surrogates
  (`ReplyStream.EmojiIsSplit`); the exact condition is in `ReplyStream.DecodeInvertsEscape`.
- "A chunk never ends mid-word" (`prosody.py:60`) holds within a buffer, not across tokens: a
  boundary mark at the end of what has arrived is accepted (`PlannerLimits.DecimalIsSevered`, for
  every budget). The exact condition for given budgets is in `StreamWords.StreamKeepsWordsIff`, the
  one for all budgets, on the tokens alone, in `StreamWords.KeepsWordsForAllBudgetsIff`.
- The "hard ceiling" `max_words` (`prosody.py:66`) is exceeded when the preferred boundary
  lies further out (`ChunkPlanner.OverCeilingIff`, reached in `PlannerLimits.CeilingIsExceeded`);
  the bound that does hold, and is attained, is in `ChunkPlanner.FeedSizes`.
- A match of the connector rule consumes the white space on both sides, so every second connector
  of a row is not matched. A connector past the minimum is passed over exactly if it is one of
  these and no earlier match was taken (`ConnectorRule.ConnectorOverlookedIff`,
  `PlannerLimits.ConnectorPairIsMissed`).
- Echo that stays under the bar of its quietest frame never interrupts; on lines quieter than the
  seed of the baseline it may even touch that bar (`EchoBound.EchoImmunityIff`).
- A caller who is loud from the first playback frame on becomes the echo baseline and is not
  detected by energy (`AgentLoop.LoudFromTheStartIsMasked`).
- The comment that the speech counter restarts with each TTS chunk (`agent.py:1019`) describes
  an earlier version; the code keeps counting, and so does the model.
- The error bound of a codec segment holds up to magnitude 32639 and fails beyond, where samples
  are clipped (`MuLaw.ErrorBoundIff`).
- The non-hot comparator is not the hot one for scores that are not positive
  (`Assignment.ZeroScoreTies`); the exact condition for a roster is in
  `AssignmentBranches.BranchesAgreeIff`.
- Reassigning a handoff leaves its task with the first assignee
  (`Handoff.ReassignedTaskStaysOpenIff`, with the exact condition) and takes the handoff out of SLA
  evaluation (`HandoffSla.ReassignedIsNotMonitored`).
- The in-memory store and the Postgres store disagree on the empty campaign
  (`Billing.StoresAgreeIff`, `Billing.StoresDiffer`).
- The "monthly" cap is compared with the total since the beginning, which never falls
  (`Billing.TotalsGrow`), so a cap once reached is reached for good (`Billing.CapSignalledIff`).
- Two overlapping drains can reorder retries (`UploadOrder.OverlappingDrainsReorder`). The order is
  kept on all runs with at most n drains at once exactly if n is at most one
  (`UploadOrder.OrderKeptIff`), which is how the ticker of the server drains; which states are in
  danger is in `UploadOrder.StaysInOrderIff`.

## Model

| member | source | states |
|---|---|---|
| `SynthPipeline.SentInOrder` | `services/voice-agent-worker/voice_agent/agent.py:521-620` | Over every interleaving of producer, player, queue and barge-in: at most two slots are filled, the end marker is last, and produced frames = sent frames ++ frames in flight, so what is sent is always a prefix of what is produced, and all of it once the player ends without a barge-in |
| `SynthPipeline.FirstAudioFirst` | `services/voice-agent-worker/voice_agent/agent.py:590-618` | First audio is reported exactly once, as the very first output, before any frame is sent |
| `SynthPipeline.StopSilences` | `services/voice-agent-worker/voice_agent/agent.py:468-587` | From any state with stop set, on every continuation: nothing more is produced, the player takes no further frames on, and the frames sent grow at most by the one frame the player had committed to |
| `SynthPipeline.StopTakesUpNothing` | `services/voice-agent-worker/voice_agent/agent.py:553-562` | From any state with stop set, on every continuation, no further sentence is taken up, however many are queued |
| `SynthPipeline.ChunksAreWhole` | `services/voice-agent-worker/voice_agent/agent.py:446-487` | Without a barge-in every contribution, by its number, is one complete stream, or one complete batch answer after a broken or empty stream, or nothing: never part of a stream together with a batch answer; from the second sentence on a stream that breaks off is never spoken |
| `SynthPipeline.OnlyFirstIsForwarded` | `services/voice-agent-worker/voice_agent/agent.py:560-587` | Over every run, barge-in included: exactly contribution number zero went the first-chunk way, a producer forwards frames only before any contribution, and a recovery or a batch call is marked as the first exactly then |
| `SynthPipeline.HistoryIsFaithful` | `services/voice-agent-worker/voice_agent/agent.py:446-487` | Each move of the producer reports at most one contribution, and it carries exactly the audio heard, how the stream ended and the batch answer that this move or the one before was given |
| `SynthPipeline.HearingStarts` | `services/voice-agent-worker/voice_agent/agent.py:566-580` | A sentence that is pulled and a first stream that is opened again start with nothing heard, and what arrives is heard |
| `SynthPipeline.SentencesInOrder` | `services/voice-agent-worker/voice_agent/agent.py:545-587` | Without a barge-in the nonempty sentences pulled are exactly the sentences that have contributed, in order, and the one in work |
| `SynthPipeline.FinishedSaysEverything` | `services/voice-agent-worker/voice_agent/agent.py:521-620` | A pipeline that ends without a barge-in has sent exactly the contributions of all nonempty sentences up to the end marker, in order, each of them whole |
| `SynthPipeline.NoDeadlock` | `services/voice-agent-worker/voice_agent/agent.py:521-620` | No interleaving deadlocks: an unfinished pipeline can move or waits for a service or a queue item |
| `SynthPipeline.PutsIff` | `services/voice-agent-worker/voice_agent/agent.py:521-541` | In every reachable state a producer with something to hand over is blocked exactly while two slots are filled |
| `AgentLoop.EchoImmunity` | `services/voice-agent-worker/voice_agent/agent.py:1047-1073` | For a playback of any length with energies in [lo, hi] and hi under the bar of lo, the baseline never sinks below lo, the counter stays zero and energy never interrupts |
| `EchoBound.EchoImmunityIff` | `services/voice-agent-worker/voice_agent/agent.py:1047-1073` | For every range of energies: some playback in [lo, hi] makes energy interrupt if and only if hi reaches the bar of lo, when the line is at or above the seed, the baseline adapts at once, or the bar is flat there (multiplier zero); hi exceeds it, when a quieter line is only approached by the baseline; hi reaches the bar of the starting baseline, when the baseline does not adapt |
| `EchoBound.ShippedBound` | `services/voice-agent-worker/voice_agent/agent.py:131-151` | With the shipped settings, as numbers: echo in [lo, hi] can interrupt exactly if hi reaches both 2 lo and lo + 600 from 300 on, and exceeds both below |
| `EchoBound.HoverImmunity` | `services/voice-agent-worker/voice_agent/agent.py:1047-1066` | On a line under the seed a gradually adapting baseline stays strictly above lo, so even energies at the bar of lo never interrupt, however long the playback |
| `EchoBound.EchoDecays` | `services/voice-agent-worker/voice_agent/agent.py:1059-1064` | Frames at lo bring the baseline down to lo within any distance in a bounded number of frames, or to a bar that lo itself reaches |
| `AgentLoop.CounterIsBestSuffix` | `services/voice-agent-worker/voice_agent/agent.py:1053-1066` | Up to the first interruption of a playback the leaky counter is the greatest excess of above-bar frames over others in any stretch that ends now |
| `AgentLoop.ConfirmsIff` | `services/voice-agent-worker/voice_agent/agent.py:1053-1093` | Energy interrupts at a frame if and only if some stretch ending there has at least `sustain` more above-bar frames than others |
| `AgentLoop.CallerFreezesBaseline` | `services/voice-agent-worker/voice_agent/agent.py:1053-1066` | While a caller stays over the bar and nothing has fired, the baseline does not move and every frame counts |
| `AgentLoop.SustainedCallerInterrupts` | `services/voice-agent-worker/voice_agent/agent.py:1053-1093` | Above-bar frames for the whole sustain window always interrupt, whatever the counter was before |
| `AgentLoop.CallerIsDetected` | `services/voice-agent-worker/voice_agent/agent.py:1047-1093` | After at least one playback frame, a caller at or above the bar of the seed and of every earlier energy interrupts within the sustain window |
| `AgentLoop.LoudFromTheStartIsMasked` | `services/voice-agent-worker/voice_agent/agent.py:1047-1053` | A caller at one constant level from the first playback frame on is never detected by energy: the earlier frame in CallerIsDetected is needed |
| `AgentLoop.WordGateNeedsSustainedSpeech` | `services/voice-agent-worker/voice_agent/agent.py:1096-1205` | Even with the back-off to half the threshold, words interrupt only after the full number of loud frames with no silent frame between them, and only with enough words heard |
| `AgentLoop.SustainedWordsInterrupt` | `services/voice-agent-worker/voice_agent/agent.py:1096-1173` | From any count, loud frames up to the threshold interrupt if the last one comes with enough words |
| `AgentLoop.RejectedCallerTriesAgain` | `services/voice-agent-worker/voice_agent/agent.py:1146-1153` | After a rejected candidate, the other half of the threshold in loud frames interrupts once the words are there: 160 ms with the shipped settings |
| `AgentLoop.PlaybackKeepsLoudFrames` | `services/voice-agent-worker/voice_agent/agent.py:1096-1205` | During playback the loud frames under the threshold, and only they, are kept for the utterance that may follow |
| `AgentLoop.ListeningForgetsPlayback` | `services/voice-agent-worker/voice_agent/agent.py:1207-1215` | A listening frame forgets the echo baseline and both counters |
| `AgentLoop.InterruptionsAreMarked` | `services/voice-agent-worker/voice_agent/agent.py:939-976` | On every run, playback and listening mixed, an utterance is marked as an interruption if and only if one directly precedes it |
| `AgentLoop.RunLoop` | `services/voice-agent-worker/voice_agent/agent.py:998-1269` | The frame loop over mutable variables emits, for every frame sequence, the events of the per-frame transition function that all the lemmas are about |
| `AgentLoop.AudioLoop.OnFrame` | `services/voice-agent-worker/voice_agent/agent.py:1012-1265` | One frame: playback or listening branch, whole new state and new events |
| `AgentLoop.AudioLoop.TrackEcho` | `services/voice-agent-worker/voice_agent/agent.py:1047-1066` | Baseline seeding, smoothing and the leaky counter, nothing else touched |
| `AgentLoop.AudioLoop.CheckWords` | `services/voice-agent-worker/voice_agent/agent.py:1096-1205` | Word gate with back-off and debounce buffering |
| `AgentLoop.AudioLoop.DoBargeIn` | `services/voice-agent-worker/voice_agent/agent.py:939-980` | The state after a confirmed interruption: capture restarts with the triggering frame, counters and baseline cleared |
| `AgentLoop.AudioLoop.OnListening` | `services/voice-agent-worker/voice_agent/agent.py:1207-1265` | Listening branch: resets of the playback state, start of speech, silence count and dispatch |
| `Endpointing.CollectUtterance` | `services/voice-agent-worker/voice_agent/vad.py:128-150` | The reference loop returns what the recursive reference returns, for every frame list and silence setting |
| `Endpointing.CollectShape` | `services/voice-agent-worker/voice_agent/vad.py:128-150` | The reference skips silence, then returns every frame from the first speech on, up to the first moment the closing silence is long enough, or all frames there are |
| `Endpointing.UtterancesAreCollected` | `services/voice-agent-worker/voice_agent/agent.py:1212-1265` | With no playback, semantic endpointing on or off, the utterances dispatched are the reference, with the limit each frame calls for, applied again and again after each previous endpoint, for every frame sequence; with semantic endpointing off this is `collect_utterance` itself |
| `Endpointing.EndpointsOnTime` | `services/voice-agent-worker/voice_agent/agent.py:1212-1265` | With no playback, on the settings themselves: each utterance starts with speech and ends at the very first silent frame whose count reaches the short limit with a complete partial, or the full limit with any; with silence and speech frames counted right |
| `Endpointing.SilenceBounds` | `services/voice-agent-worker/voice_agent/agent.py:1225-1237` | On every run, playback included, each utterance ends with a silence count between the short and the full limit, and the counter stays under the full limit between frames |
| `Endpointing.DefaultLimits` | `services/voice-agent-worker/voice_agent/agent.py:183-185` | With the shipped settings every utterance ends after 15 to 37 silent frames |
| `Endpointing.DefaultEndpoints` | `services/voice-agent-worker/voice_agent/agent.py:1225-1237` | With the shipped settings: an utterance whose last partial is not complete has exactly 37 silent frames, and no frame with a complete partial is passed over once 15 are reached |
| `Endpointing.InterruptionIsCaptured` | `services/voice-agent-worker/voice_agent/agent.py:939-982` | After a confirmed interruption the next utterance begins with the triggering frame and goes on with every frame since, in order, and is marked |
| `ChunkPlanner.StreamConserves` | `services/voice-agent-worker/voice_agent/prosody.py:99-133` | For every token sequence the visible characters of all emitted chunks and the flush are those of the input, in order |
| `ChunkPlanner.DrainConserves` | `services/voice-agent-worker/voice_agent/prosody.py:99-133` | Within one buffer no word and no visible character is lost, added, split or reordered |
| `ChunkPlanner.CutIsSafe` | `services/voice-agent-worker/voice_agent/prosody.py:135-234` | Every cut, by whichever of the four rules, lies on a word edge with a word before it; a chunk below its floor is cut only from a buffer at the ceiling |
| `ChunkPlanner.CutConserves` | `services/voice-agent-worker/voice_agent/prosody.py:127-133` | words(buffer) = words(chunk) ++ words(rest) at every such cut, and the same for visible characters |
| `ChunkPlanner.DrainSizes` | `services/voice-agent-worker/voice_agent/prosody.py:99-170` | Every chunk of a feed has a word, is below its floor only if that many words were buffered, and at most `maxWords` words stay buffered |
| `ChunkPlanner.FeedSizes` | `services/voice-agent-worker/voice_agent/prosody.py:99-113` | From a buffer of at most `maxWords` words, no chunk has more than `maxWords` + words(token) words, and the bound on the buffer is kept |
| `ChunkPlanner.DrainIsPrompt` | `services/voice-agent-worker/voice_agent/prosody.py:135-170` | What a feed leaves offers no cut: no clause end past the minimum, no first-chunk boundary, no boundary at all at the ceiling, no connector past the minimum |
| `StreamWords.StreamWords` | `services/voice-agent-worker/voice_agent/prosody.py:99-125` | The number of words spoken is the number of words of the stream plus the number of tokens at which a word was severed |
| `StreamWords.StreamKeepsWordsIff` | `services/voice-agent-worker/voice_agent/prosody.py:172-192` | The words spoken are the words of the stream if and only if no token severs a word: the last uncut piece ends in a mark, is long enough for it (clause-final past the minimum, either kind for the first chunk or at the ceiling), and a word character follows |
| `StreamWords.SeversIff` | `services/voice-agent-worker/voice_agent/prosody.py:135-192` | That guard on the text holds if and only if the feed sends everything out though the last word goes on |
| `StreamWords.KeepsWordsForAllBudgetsIff` | `services/voice-agent-worker/voice_agent/prosody.py:181-191` | On the tokens alone: the words are kept whatever the budgets if and only if no token boundary falls between a mark and a word character |
| `PlannerLimits.DecimalIsSevered` | `services/voice-agent-worker/voice_agent/prosody.py:172-192` | For every budget: after one word less than the first budget, "3." and then "5 lakh" is spoken with the decimal torn apart |
| `ChunkPlanner.OverCeilingIff` | `services/voice-agent-worker/voice_agent/prosody.py:213-234` | A chunk exceeds `maxWords` if and only if the first preferred boundary lies beyond that many words |
| `PlannerLimits.CeilingIsExceeded` | `services/voice-agent-worker/voice_agent/prosody.py:213-222` | For every budget and every n: `maxWords` unmarked words that arrive one by one all wait, and n more with a full stop then leave with them in one chunk of `maxWords` + n words, so the bound of FeedSizes is attained |
| `ChunkPlanner.ScanBoundary` | `services/voice-agent-worker/voice_agent/prosody.py:172-192` | The first qualifying boundary of a kind: it qualifies, and none before it does |
| `ChunkPlanner.BoundaryCutIs` | `services/voice-agent-worker/voice_agent/prosody.py:172-192` | The first clause-final boundary that qualifies; a soft one only if no clause-final one qualifies anywhere, and then the first; none only if none qualifies |
| `ChunkPlanner.CutIs` | `services/voice-agent-worker/voice_agent/prosody.py:135-170` | Which rule cuts, and where: at the ceiling the preferred boundary of any size or the end of word number `maxWords`, then the first-chunk boundary, then a clause end past the minimum, then a connector; nothing else |
| `ChunkPlanner.CutTrims` | `services/voice-agent-worker/voice_agent/prosody.py:127-133` | A chunk has no white space around it, and the buffer goes on with a word |
| `ConnectorRule.ConnectorFound` | `services/voice-agent-worker/voice_agent/prosody.py:194-211` | The rule cuts before the first connector that is past the minimum and has an even number of connectors in a row right before it, and does not cut if there is none |
| `ConnectorRule.ConnectorCutStarts` | `services/voice-agent-worker/voice_agent/prosody.py:194-211` | The connector rule cuts right before a connector |
| `ConnectorRule.ConnectorOverlookedIff` | `services/voice-agent-worker/voice_agent/prosody.py:37-42` | A connector past the minimum is passed over if and only if an odd number of connectors stand in a row right before it, and right before every earlier one past the minimum |
| `PlannerLimits.ConnectorPairIsMissed` | `services/voice-agent-worker/voice_agent/prosody.py:194-211` | For every budget with a minimum of two words or more below the ceiling, and any two connectors: after one word less than the minimum the second of them is past the minimum, and nothing is cut |
| `PlannerLimits.ShippedConnectorIsMissed` | `services/voice-agent-worker/voice_agent/prosody.py:37-42` | The shipped planner misses the cut in eleven words and then two connectors |
| `ChunkPlanner.WordEndIsSafe` | `services/voice-agent-worker/voice_agent/prosody.py:223-234` | The forced cut lies on a word edge with exactly `maxWords` words before it |
| `ChunkPlanner.SemanticChunkPlanner.Create` | `services/voice-agent-worker/voice_agent/prosody.py:75-91` | A planner exists exactly for budgets in order |
| `ChunkPlanner.SemanticChunkPlanner.Reset` | `services/voice-agent-worker/voice_agent/prosody.py:93-96` | Back to the start of a turn |
| `ChunkPlanner.SemanticChunkPlanner.Feed` | `services/voice-agent-worker/voice_agent/prosody.py:99-113` | The loop ends, returns what the value-level feed returns, and every chunk has between one and `maxWords` + words(token) words |
| `ChunkPlanner.SemanticChunkPlanner.Flush` | `services/voice-agent-worker/voice_agent/prosody.py:115-124` | The trimmed rest with all its words, and an empty buffer |
| `ChunkPlanner.SemanticChunkPlanner.SplitAt` | `services/voice-agent-worker/voice_agent/prosody.py:127-133` | Chunk, rest and the first-chunk flag, which falls only with a nonempty chunk |
| `ChunkPlanner.SemanticChunkPlanner.TryEmit` | `services/voice-agent-worker/voice_agent/prosody.py:135-170` | Cuts where the rules say and strictly shrinks the buffer, or changes nothing |
| `ChunkPlanner.SemanticChunkPlanner.FindBoundaryCut` | `services/voice-agent-worker/voice_agent/prosody.py:172-192` | The two scanning loops give the first clause-final boundary, failing that the first soft one |
| `ChunkPlanner.SemanticChunkPlanner.FindConnectorCut` | `services/voice-agent-worker/voice_agent/prosody.py:194-211` | The loop over non-overlapping matches gives the first one with enough words before it |
| `ChunkPlanner.SemanticChunkPlanner.FindMaxWordCut` | `services/voice-agent-worker/voice_agent/prosody.py:213-234` | The word-counting loop ends at the end of word number `maxWords` |
| `ReplyStream.StreamReply` | `services/llm-router/llm_router/router.py:474-510` | For every split of the model output into tokens, the emitted pieces put together are the one-shot decode of the whole output, and no piece is empty |
| `ReplyStream.StreamDocument` | `services/llm-router/llm_router/router.py:397-510` | End to end: any split of a document whose reply is written without surrogate pairs streams exactly the original reply |
| `ReplyStream.ReplyStreamer.OnToken` | `services/llm-router/llm_router/router.py:497-510` | Exactly the newly decoded suffix is emitted, whatever the token boundaries |
| `ReplyStream.ExtractReplyProgress` | `services/llm-router/llm_router/router.py:397-444` | The search and the index loop compute the recursive decode of the located value |
| `ReplyStream.FindValue` | `services/llm-router/llm_router/router.py:405-417` | Key, colon, white space and opening quote, as the value-level search finds them |
| `ReplyStream.DecodeFrom` | `services/llm-router/llm_router/router.py:418-444` | The index loop from any position decodes the rest of the buffer unit by unit |
| `ReplyStream.PrefixMonotone` | `services/llm-router/llm_router/router.py:397-444` | However the buffer grows, text already decoded stays a prefix, and the result is final after the closing quote |
| `ReplyStream.DecodeMonotone` | `services/llm-router/llm_router/router.py:421-444` | The same for the value alone, across half-received escapes |
| `ReplyStream.DeferralIsShort` | `services/llm-router/llm_router/router.py:423-430` | No half escape is emitted, and no more is held back: at most five characters, which begin with a backslash |
| `ReplyStream.DecodeInvertsEscape` | `services/llm-router/llm_router/router.py:405-444` | For every text, every legal spelling of it under section 7 of RFC 8259 and every white space around the colon: decoding completes, and returns the text if and only if no character is spelled as a surrogate pair |
| `ReplyStream.DecodeEscaped` | `services/llm-router/llm_router/router.py:421-444` | What decoding makes of every legal spelling, surrogate pairs included, and that it stops at the closing quote |
| `ReplyStream.EmojiIsSplit` | `services/llm-router/llm_router/router.py:427-435` | U+1F600 written as a surrogate pair comes back as two lone surrogates |
| `ReplyStream.FindIsFirst` | `services/llm-router/llm_router/router.py:405-411` | The search returns the first occurrence if there is one |
| `TtsSocket.AudioReachesItsCall` | `services/voice-agent-worker/voice_agent/clients.py:455-558` | Over every run of completed, truncated, errored, reconnected and abandoned calls, with the network and the server interleaved: each frame yielded to a call was sent in answer to that call, in order and without gaps; a completed call got all of it |
| `TtsSocket.OutcomesAreTrue` | `services/voice-agent-worker/voice_agent/clients.py:518-549` | Over every run: a call ends as completed if and only if the `done` of its request was sent by the server and read, and as errored if and only if an error was read during it |
| `TtsSocket.TruncationIsNoticed` | `services/voice-agent-worker/voice_agent/clients.py:541-549` | A call whose socket is closed and drained ends as truncated, with the socket forgotten and no `done` counted as read |
| `TtsSocket.StepEnds` | `services/voice-agent-worker/voice_agent/clients.py:477-549` | A step ends a call exactly for a cause that matches the outcome: `done`, error, end of stream, a dropped generator or a failed send |
| `TtsSocket.CompletedSocketIsReused` | `services/voice-agent-worker/voice_agent/clients.py:455-475` | The next call after a completed one sends on the same socket while that looks open |
| `TtsSocket.ReusedSocketIsClean` | `services/voice-agent-worker/voice_agent/clients.py:541-558` | Between calls a cached socket has no request outstanding and holds no unread audio, whatever happened before |
| `TtsClient.CallConcludes` | `services/voice-agent-worker/voice_agent/clients.py:477-549` | After any history, what a call yields is what the server sent for this very call, from the first frame on and without gaps; the call is completed if and only if the `done` of its request was sent and read, and then it got all of it |
| `TtsClient.StreamClient.SynthesizeStream` | `services/voice-agent-worker/voice_agent/clients.py:477-549` | Sends, receive loop and `finally` as code: for every behaviour of network and server the call is a run of the step relation, yields only to itself and ends, as completed exactly if its `done` was read; once its request was sent, it leaves a socket to reuse only if it completed |
| `TtsClient.StreamClient.ReceiveLoop` | `services/voice-agent-worker/voice_agent/clients.py:516-549` | The loop over messages up to done, error, end of stream or a dropped generator, as a run of the step relation |
| `TtsClient.StreamClient.ReceiveTurn` | `services/voice-agent-worker/voice_agent/clients.py:518-540` | One message: audio is yielded, `done` ends the call and keeps the socket, `error` and end of stream close it |
| `TtsClient.StreamClient.SendRequest` | `services/voice-agent-worker/voice_agent/clients.py:496-515` | Sending with one reconnect: the request is on the socket that is cached afterwards, or the call ends |
| `TtsClient.StreamClient.EnsureStreamWs` | `services/voice-agent-worker/voice_agent/clients.py:455-475` | Reuse of a socket that looks open, else close and connect; nothing cached if connecting fails |
| `TtsClient.StreamClient.CloseStreamWs` | `services/voice-agent-worker/voice_agent/clients.py:551-558` | The cached socket is closed and forgotten |
| `TtsClient.StreamClient.DropGenerator` | `services/voice-agent-worker/voice_agent/clients.py:541-546` | A dropped generator closes the socket it was reading from |
| `MuLaw.CodeRoundTrip` | `services/voice-agent-worker/voice_agent/vobiz_codec.py:45-87` | Encoding a decoded byte gives the byte back, but for 0x7F, which becomes 0xFF |
| `MuLaw.DecodeLaw` | `services/voice-agent-worker/voice_agent/vobiz_codec.py:45-58` | On the bytes: 0xFF - 16 e - m decodes to 4 ((2 m + 33) 2^e - 33) for each segment e and mantissa m |
| `MuLaw.DecodeNegates` | `services/voice-agent-worker/voice_agent/vobiz_codec.py:45-58` | A byte without its top bit decodes to the negative of the same byte with it |
| `MuLaw.DecodeFalls` | `services/voice-agent-worker/voice_agent/vobiz_codec.py:45-58` | From 0x80 to 0xFF the decoded samples fall strictly |
| `MuLaw.EncodeOrder` | `services/voice-agent-worker/voice_agent/vobiz_codec.py:61-87` | Among samples of one sign, the larger magnitude never gets the larger byte; the top bit is the sign |
| `MuLaw.ErrorBoundIff` | `services/voice-agent-worker/voice_agent/vobiz_codec.py:61-87` | Encode-then-decode errs by at most 4 * 2^e + 3 in segment e if and only if the magnitude is at most 32639 |
| `MuLaw.Monotone` | `services/voice-agent-worker/voice_agent/vobiz_codec.py:45-87` | Encode-then-decode never swaps two samples |
| `MuLaw.Idempotent` | `services/voice-agent-worker/voice_agent/vobiz_codec.py:45-87` | A second pass through the codec changes nothing |
| `MuLaw.QuantizedIsNear` | `services/voice-agent-worker/voice_agent/vobiz_codec.py:73-87` | A clipped magnitude is less than one step of its segment away from its level |
| `MediaFrames.BridgeRoundTrip` | `services/voice-agent-worker/voice_agent/vobiz_media.py:161-277` | A payload of any length, decoded, cut into zero-padded PCM frames and each frame encoded and sent, is the payload with 0x7F made 0xFF, cut into frames padded with 0xFF |
| `MediaFrames.BufferRoundTrip` | `services/voice-agent-worker/voice_agent/vobiz_codec.py:99-125` | Encoding what was decoded gives any payload back, with 0x7F made 0xFF |
| `MediaFrames.BufferThroughCodec` | `services/voice-agent-worker/voice_agent/vobiz_codec.py:99-125` | Any PCM buffer through the codec is, sample by sample, what the codec does to one sample |
| `MediaFrames.LittleEndian` | `services/voice-agent-worker/voice_agent/vobiz_codec.py:99-125` | Samples are written and read low byte first, in two's complement |
| `MediaFrames.FramesConserve` | `services/voice-agent-worker/voice_agent/vobiz_media.py:163-167` | Framing keeps every byte in order and adds only the filler |
| `MediaFrames.MediaBridge.EnqueueUlaw` | `services/voice-agent-worker/voice_agent/vobiz_media.py:161-167` | The slicing loop queues exactly the padded frames of the decoded payload |
| `MediaFrames.MediaBridge.SendAudio` | `services/voice-agent-worker/voice_agent/vobiz_media.py:244-278` | The sending loop sends exactly the padded frames before the first one at which the stop flag is seen; an odd buffer is refused and sends nothing |
| `Assignment.SelectIsBest` | `services/handoff/internal/assignment/assignment.go:22-53` | For positive scores and distinct IDs the pick is the best eligible rep by (fewest open tasks, highest score, smallest ID) |
| `Assignment.SelectIgnoresOrder` | `services/handoff/internal/assignment/assignment.go:22-53` | The pick depends neither on the order of the roster nor on the hot and non-hot branch |
| `Assignment.SelectIsEligible` | `services/handoff/internal/assignment/assignment.go:22-36` | For all scores: the pick is a listed rep under cap, and there is none exactly if no rep is under cap |
| `AssignmentBranches.HotPicksBest` | `services/handoff/internal/assignment/assignment.go:22-53` | On all scores and in every order of the roster, the hot branch picks the best rep under cap |
| `AssignmentBranches.BranchesAgreeIff` | `services/handoff/internal/assignment/assignment.go:37-65` | On all scores: the non-hot branch picks that rep in every order of the roster if and only if no rep under cap with as few open tasks has a lower score that is not positive while the best score is at most one |
| `Assignment.LessIsBetterIff` | `services/handoff/internal/assignment/assignment.go:38-65` | The hot comparator is the intended order; the non-hot one agrees on two candidates if and only if their weights order as their scores do |
| `Assignment.LessIsBetter` | `services/handoff/internal/assignment/assignment.go:38-65` | For positive scores both branches of the comparator are the intended order |
| `Assignment.BetterIsStrictTotal` | `services/handoff/internal/assignment/assignment.go:38-51` | That order is irreflexive, transitive, asymmetric, and total on distinct IDs |
| `Assignment.BeforeIff` | `services/handoff/internal/assignment/assignment.go:46-51` | The order of IDs: a proper prefix comes first, otherwise the first difference decides |
| `Assignment.ZeroScoreTies` | `services/handoff/internal/assignment/assignment.go:59-65` | A score of zero beside a score of one: the non-hot comparator orders neither before the other |
| `Assignment.StableSort` | `services/handoff/internal/assignment/assignment.go:37-51` | The sort is a permutation whatever the comparator does, and equals the sort the lemmas are about |
| `Handoff.RunKeepsTasks` | `services/handoff/internal/service/service.go:34-205` | In every sequential run with a fixed roster: no rep with a positive cap has more open tasks than the cap, and each assigned, never reassigned handoff has exactly one task, its assignee's, due at the deadline, open while unacknowledged and closed afterwards |
| `Handoff.EvaluateOnlyEscalates` | `services/handoff/internal/service/service.go:207-281` | An evaluation changes no task; each handoff is unchanged in every field, or was monitored and differs only in being escalated at that time |
| `Handoff.TurnedDownIff` | `services/handoff/internal/service/service.go:34-104` | Whatever the scores, a well-formed request for a genuine buyer is turned down, without a trace, if and only if every active rep of that tenant and team is at cap; otherwise one under cap gets it, and the store gains exactly the handoff, one open task and the SLA start, due after 300 seconds for a hot lead and 1800 for any other |
| `Handoff.BrokersAreSuppressed` | `services/handoff/internal/service/service.go:46-68` | A well-formed request for a broker or fake adds exactly one suppressed handoff of the resolved tenant and the lead, without assignee; tasks, SLA log and every count of open tasks stay as they are |
| `Handoff.MalformedIsRefused` | `services/handoff/internal/service/service.go:35-45` | Without a lead, a snapshot ID or a known snapshot, nothing is created and nothing changes |
| `Handoff.BestRepGetsTheHandoff` | `services/handoff/internal/service/service.go:71-91` | On positive scores the best of the reps under cap gets the handoff |
| `Handoff.ReassignedTaskStaysOpenIff` | `services/handoff/internal/service/service.go:139-205` | When an open handoff is reassigned and then acknowledged by the new assignee, its task stays open if and only if it went to another, named user |
| `Handoff.ReassignedTaskCounts` | `services/handoff/internal/service/service.go:139-205` | Such a task keeps counting against the first assignee |
| `Handoff.AcknowledgeClosesIff` | `services/handoff/internal/store/fake.go:181-192` | An acknowledgement closes an open task of the handoff if and only if it belongs to the acknowledger, or no user is named |
| `HandoffSla.RunKeepsSla` | `services/handoff/internal/service/service.go:207-281` | Over every run, with evaluations at any times: at most one rep miss, one manager miss and one owner alert per handoff, a manager miss only after a rep miss, an owner alert only after both, none before it is due |
| `HandoffSla.EvaluateDetects` | `services/handoff/internal/service/service.go:207-251` | No miss is overlooked: an evaluation that lists a monitored handoff logs everything that is due on it |
| `HandoffSla.MissesEscalate` | `services/handoff/internal/service/service.go:216-281` | Over every run: a handoff with a rep miss has been escalated to the manager and is not pending any more |
| `HandoffSla.SettledIsLeftAlone` | `services/handoff/internal/service/service.go:207-215` | An evaluation leaves the record of an acknowledged, reassigned or suppressed handoff and the sequence of events about it exactly as they are |
| `HandoffSla.SuppressedLeadStaysQuiet` | `services/handoff/internal/service/service.go:46-68` | On every continuation of a run, the handoff of a broker or fake has no task and no SLA event until somebody escalates or reassigns it by hand |
| `HandoffSla.ReassignedIsNotMonitored` | `services/handoff/internal/service/service.go:207-215` | A reassigned handoff keeps its record and its events through every evaluation, whatever its new deadline |
| `HandoffService.Service.CreateHandoff` | `services/handoff/internal/service/service.go:34-137` | Validation, suppression of brokers and fakes, assignment, and the records written, as the value-level creation |
| `HandoffService.Service.AssignRep` | `services/handoff/internal/service/service.go:71-137` | The assignment part of creation: team, selection under cap, deadline and records, or no change |
| `HandoffService.Service.SelectRep` | `services/handoff/internal/assignment/assignment.go:22-53` | The loop that counts the open tasks of each rep and filters, the stable sort and the pick compute the value-level selection |
| `HandoffService.Service.CountOpenTasks` | `services/handoff/internal/store/fake.go:72-82` | The counting loop, in any order of the map, gives the number of open tasks |
| `HandoffService.Service.AcknowledgeHandoff` | `services/handoff/internal/service/service.go:139-165` | Accepted exactly for the assignee of a known handoff; the new store |
| `HandoffService.Service.CloseTasksForHandoff` | `services/handoff/internal/store/fake.go:181-192` | The loop over the map closes exactly the tasks of that handoff and user |
| `HandoffService.Service.ReassignHandoff` | `services/handoff/internal/service/service.go:175-205` | Accepted exactly for a known handoff; tasks untouched |
| `HandoffService.Service.EscalateHandoff` | `services/handoff/internal/service/service.go:167-173` | Accepted exactly for a known handoff; the new store |
| `HandoffService.Service.HasSlaEvent` | `services/handoff/internal/store/fake.go:246-255` | The search loop finds an event exactly if it is in the log |
| `HandoffService.Service.EvaluateSLAs` | `services/handoff/internal/service/service.go:207-251` | The loop visits each stored handoff exactly once, in some order, and leaves the store that the value-level evaluation in that order leaves |
| `Billing.OrderAndRedeliveryDoNotMatter` | `services/billing-meter/internal/service/service.go:28-126` | Two deliveries of the same keyed usages, in any order and with any repetitions, give the same tenant and campaign summaries |
| `Billing.SummariesAreFolds` | `services/billing-meter/internal/store/fake.go:34-76` | After every delivery, with duplicates or without, each in-memory summary is the fold over the cost events |
| `Billing.StoresAgreeIff` | `services/billing-meter/internal/store/postgres.go:54-72` | The two stores agree on a scope if and only if it is not the empty campaign, or no cost lacks a campaign |
| `Billing.StoresDiffer` | `services/billing-meter/internal/store/fake.go:55-58` | A single usage without a campaign makes the two stores differ |
| `Billing.BookedOnce` | `services/billing-meter/internal/store/fake.go:34-60` | Delivered to an empty meter, each well-formed keyed usage is booked exactly once and nothing else is |
| `Billing.FoldPermutes` | `services/billing-meter/internal/store/postgres.go:54-72` | The fold does not depend on the order in which the cost events are listed |
| `Billing.SignalsIff` | `services/billing-meter/internal/service/service.go:128-195` | Going by the ledger, a booking is followed by exactly the signals that are due: warning from four fifths of a cap on, cap reached and auto pause at the cap, for its tenant and its campaign, and a cutoff for too long a call |
| `Billing.CapSignalledIff` | `services/billing-meter/internal/service/service.go:128-180` | Over every delivery, for every tenant and every campaign: a cap signal of each kind has been emitted if and only if the total of the ledger stands at the share of the cap at which it is due |
| `Billing.SignalledAtSomeBooking` | `services/billing-meter/internal/service/service.go:65-67` | Over every run that mixes usages and changes of caps: a cap signal has been emitted if and only if, at some booking in its scope, the total stood at the share of the cap then set |
| `Billing.CostFor` | `services/billing-meter/internal/service/service.go:85-126` | The billed quantity and the unit price of every kind as numbers: at least one unit for messages, speech and tokens; a call every started minute at 1.20; an unknown kind nothing |
| `Billing.TotalsGrow` | `services/billing-meter/internal/service/service.go:85-126` | The ledger is only appended to and no total ever falls, so a reached cap stays reached |
| `Billing.RoundPlivoSeconds` | `services/billing-meter/internal/pricing/pricing.go:20-25` | The least multiple of sixty that covers the seconds; zero for none |
| `BillingService.Service.RecordUsage` | `services/billing-meter/internal/service/service.go:28-51` | Validation, pricing, booking and signals as the value-level step; summaries stay folds, balances stay sums |
| `BillingService.Service.SetCaps` | `services/billing-meter/internal/store/fake.go:78-83` | Sets the caps of exactly one campaign or tenant; the ledger and its summaries are untouched |
| `BillingService.Service.RecordUsageCost` | `services/billing-meter/internal/store/fake.go:34-60` | Books exactly if the key is empty or new, else changes nothing |
| `BillingService.Service.EvaluateCaps` | `services/billing-meter/internal/service/service.go:128-195` | Appends exactly the tenant, campaign and cutoff signals |
| `BillingService.Service.ReadSummary` | `services/billing-meter/internal/store/fake.go:62-76` | The stored summary is what one pass over the ledger would give |
| `BillingService.Service.AddCredit` | `services/billing-meter/internal/store/fake.go:91-102` | The balance map stays the sum over the credit entries |
| `BillingService.Service.GetBalance` | `services/billing-meter/internal/store/postgres.go:96-108` | The stored balance is the sum over the tenant's credit entries |
| `BillingService.PostgresSummary` | `services/billing-meter/internal/store/postgres.go:54-72` | The accumulation loop over any listing of the ledger gives the fold over the ledger |
| `UploadWorker.EveryJobInOnePlace` | `services/freeswitch-bridge/internal/recording/uploader.go:87-128` | With any interleaving of enqueues and drains, overlapping ones included, each job is exactly once in the queue, in a drain, completed or failed |
| `UploadWorker.AttemptsBounded` | `services/freeswitch-bridge/internal/recording/uploader.go:100-128` | Waiting jobs have fewer than three attempts; a job is reported failed after exactly three |
| `UploadWorker.FilesRemovedLast` | `services/freeswitch-bridge/internal/recording/uploader.go:130-176` | Over every run: a local file is removed only after its upload, its save and its ready event, and exactly for completed jobs |
| `UploadWorker.RemovedIsLast` | `services/freeswitch-bridge/internal/recording/uploader.go:130-176` | An attempt removes the file if and only if read, upload, save and ready event succeed and the archiver does not fail without a copy, and then as its last effect |
| `UploadWorker.CopyIsAnnounced` | `services/freeswitch-bridge/internal/recording/uploader.go:148-172` | A copy is announced exactly if the attempt succeeds with one; an archiver error beside a copy is only a warning, one without a copy ends the attempt |
| `UploadOrder.RetriesStayAhead` | `services/freeswitch-bridge/internal/recording/uploader.go:100-128` | With drains one at a time and enqueues at any moment, unfinished jobs are tried in the order in which they were enqueued: a job put back stays ahead of every newer one |
| `UploadOrder.OrderKeptIff` | `services/freeswitch-bridge/internal/recording/uploader.go:100-128` | For every n: the queue stays ordered on every run with at most n drains at work at once if and only if n is at most one |
| `UploadOrder.StaysInOrderIff` | `services/freeswitch-bridge/internal/recording/uploader.go:100-128` | From every reachable state: the queue stays ordered whatever happens short of a new drain if and only if it is ordered now, what a drain may still put back is in order and older than the queue, and at most one drain holds jobs with an attempt left |
| `UploadOrder.OverlappingDrainsReorder` | `services/freeswitch-bridge/internal/recording/uploader.go:122-126` | Two overlapping drains can put a newer job ahead of an older one |
| `UploadWorker.DrainLoopMatchesSteps` | `services/freeswitch-bridge/internal/recording/uploader.go:100-128` | The loop over a whole batch and the step machine agree after every job |
| `UploadWorker.ProcessJob` | `services/freeswitch-bridge/internal/recording/uploader.go:130-176` | The sequence of calls with its early returns, as the effects the lemmas speak of |
| `UploadWorker.Worker.Add` | `services/freeswitch-bridge/internal/recording/uploader.go:87-96` | The new job is last, with no attempts |
| `UploadWorker.Worker.DrainOnce` | `services/freeswitch-bridge/internal/recording/uploader.go:100-128` | Whatever arrives during the drain, the jobs put back come first, in order, and exactly the exhausted ones are reported |
| `CampaignText.LinesRoundTripIff` | `apps/dashboard/src/lib/campaign-helpers.ts:3-12` | Joining and splitting give a list back if and only if its entries are nonempty, trimmed and free of separators |
| `CampaignText.LinesIdempotent` | `apps/dashboard/src/lib/campaign-helpers.ts:3-12` | For every text, splitting, joining and splitting again changes nothing |
| `CampaignText.PiecesPutTogether` | `apps/dashboard/src/lib/campaign-helpers.ts:3-8` | For every text, the pieces and the separators between them, put together, are the text; the separators are line breaks, and commas in lists |
| `CampaignText.ObjectionsRoundTripIff` | `apps/dashboard/src/lib/campaign-helpers.ts:14-30` | Joining and parsing give the pairs back if and only if objections are nonempty, trimmed and free of "::" and newlines and responses are trimmed and free of newlines; responses may contain "::" |
| `CampaignText.ParseLineIs` | `apps/dashboard/src/lib/campaign-helpers.ts:19-22` | Splitting a line at every "::" and joining the rest again gives what stands before and after the first one, also where marks overlap |
| `CampaignText.ObjectionsIdempotent` | `apps/dashboard/src/lib/campaign-helpers.ts:14-30` | For every text, parsing, joining and parsing again changes nothing |

## Left out

- HTTP, WebSocket, NATS, Redis, Postgres, S3 and ONNX clients, handlers, middleware, user interface: plumbing around the modelled logic.
- STT streams, the wait of the word gate, CSO classification, fillers, guardrails, prompts: their outcome is an input of a frame or step.
- `SynthPipeline`: a coroutine is modelled by its steps between awaits, not by one method with loops; cancellation of the producer after the player has returned, sequence numbers for diagnostics and the diagnostics themselves are not modelled. The player's own test for an empty frame has no counterpart, since a frame is nonempty by its type: the producer's two filters are where empty audio is dropped.
- SynthPipeline.ChunksAreWhole: the first chunk may be spoken in part when its stream breaks off after some frames; the code keeps what was already forwarded.
- `TtsSocket`, `TtsClient`: a send is atomic; network and server act while the client waits for a message, in the step relation also between any two of its steps; the messages of the server carry the number of the request they answer, which the client cannot see.
- Wall-clock pacing of `send_audio`, resamplers, and rounding of floating-point arithmetic (the codec's `log2` is the integer segment search it stands for; reals elsewhere).
- Contiguity of the audio of an utterance with playback before its end: debounce frames are put into the buffer too, one by one as PlaybackKeepsLoudFrames says. SilenceBounds covers such utterances, the exact segmentation does not; InterruptionIsCaptured covers those that a confirmed interruption starts.
- Frames dispatched after the last endpoint of a call: an unfinished utterance is not dispatched by the code either.
- `ReplyStream`: what `int(s, 16)` makes of four characters that are not hexadecimal digits is an arbitrary function; the final validation of the JSON object and the metadata after the reply are not modelled.
- `ProsodyShaper`, claim-control and guardrail regular expressions, number spelling: rewriting by regular expressions or finite tables.
- Assignment: the stable sort of the Go library is modelled by insertion, which it is for up to twenty candidates; with positive scores, where the comparator is a strict total order, every sort gives the same pick.
- Handoff: lead assignments, task events, payloads and record identifiers other than their numbering; store errors, which the in-memory store does not return; concurrent service calls.
- Handoff.RunKeepsTasks: says nothing about the tasks of reassigned handoffs, because reassignment does not move a task.
- Billing: identifiers and timestamps of cost events, 64-bit overflow of quantities, usage events that differ under the same key, usage events without a key in the order theorem.
- UploadWorker: session and tenant names inside a job, the scanner that feeds the queue from a table, retention.
- Campaign status changes, admin API, KB approval, scoring rules, router fallback chains, consent gates: mostly single-branch facts.
- Outbox relay and JetStream delivery: the redelivery half lies in a library.
