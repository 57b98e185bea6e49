/**
 The streaming TTS client as code: the cached socket, the sends with one reconnect, and the
 receive loop with its `finally`.  What network and server do while the client awaits a message
 is a list of their steps.
 */
module TtsClient {
  import opened Text
  import opened TtsSocket

  /** A step of the network or the server. */
  predicate Outside(l: Label) {
    l.Drop? || l.Serve? || l.Emit? || l.Chatter? || l.Finish? || l.Fail?
  }

  predicate AllOutside(labels: seq<Label>) {
    forall i :: 0 <= i < |labels| ==> Outside(labels[i])
  }

  lemma {:induction false} RunConcat(s: State, a: seq<Label>, b: seq<Label>)
    ensures Run(s, a + b) == Run(Run(s, a), b)
    decreases |b|
  {
    if b == [] {
      assert a + b == a;
    } else {
      var front, l := b[..|b| - 1], b[|b| - 1];
      RunConcat(s, a, front);
      assert b == front + [l] && a + b == (a + front) + [l];
      RunOne(s, a + front, l);
      RunOne(Run(s, a), front, l);
    }
  }

  lemma RunOne(s: State, labels: seq<Label>, l: Label)
    ensures Run(s, labels + [l]) == Step(Run(s, labels), l)
  {
    assert (labels + [l])[..|labels|] == labels;
  }

  /** A call has taken the lock. */
  function Begun(s: State): State {
    s.(call := Starting(s.nextRequest), nextRequest := s.nextRequest + 1)
  }

  lemma BeginIs(s: State)
    requires s.call.Idle?
    ensures Run(s, [Begin]) == Begun(s)
  {
    RunOne(s, [], Begin);
    assert [] + [Begin] == [Begin];
  }

  lemma BeginAndSend(s: State, t: State, result: SendResult, stale: bool)
    requires s.call.Idle? && t == DoSend(Begun(s), result, stale)
    ensures t == Run(s, [Begin] + [Send(result, stale)])
  {
    BeginIs(s);
    RunOne(s, [Begin], Send(result, stale));
  }

  /** The request reaches a socket. */
  predicate Sends(result: SendResult) {
    result.SentAtOnce? || result.SentAfterReconnect?
  }

  /** Network and server do not touch what belongs to the client. */
  lemma {:induction false} OutsideKeeps(s: State, labels: seq<Label>)
    requires AllOutside(labels)
    ensures var t := Run(s, labels);
            && t.cached == s.cached && t.call == s.call && t.nextRequest == s.nextRequest
            && t.yielded == s.yielded && t.endings == s.endings && |t.sockets| == |s.sockets|
            && t.doneRead == s.doneRead && t.errorRead == s.errorRead
    decreases |labels|
  {
    if labels != [] {
      OutsideKeeps(s, labels[..|labels| - 1]);
    }
  }

  /**
   What a call gets, as the contract of `SynthesizeStream` describes it, after any history: frames
   the server sent for this very call, from the first one on and without gaps; all of them if it
   completed, which it did exactly if it read the `done` that the server sent for it.
   */
  lemma CallConcludes(history: seq<Label>, s: State, labels: seq<Label>, t: State, out: seq<Pcm>)
    requires s == Run(INIT, history) && t == Run(s, labels)
    requires t.endings != [] && t.endings[|t.endings| - 1].request == s.nextRequest
    requires YieldedTo(t.yielded, s.nextRequest) == YieldedTo(s.yielded, s.nextRequest) + out
    ensures t == Run(INIT, history + labels)
    ensures out <= EmittedFor(t.emitted, s.nextRequest)
    ensures t.endings[|t.endings| - 1].outcome.Completed? ==>
              out == EmittedFor(t.emitted, s.nextRequest) && s.nextRequest in t.doneSent
    ensures t.endings[|t.endings| - 1].outcome.Completed? <==> s.nextRequest in t.doneRead
  {
    OutcomesAreTrue(history + labels);
    RunConcat(INIT, history, labels);
    AudioReachesItsCall(history);
    AudioReachesItsCall(history + labels);
    AfterNew(s, t, out);
  }

  lemma AfterNew(s: State, t: State, out: seq<Pcm>)
    requires Inv(s) && Inv(t)
    requires t.endings != [] && t.endings[|t.endings| - 1].request == s.nextRequest
    requires YieldedTo(t.yielded, s.nextRequest) == YieldedTo(s.yielded, s.nextRequest) + out
    ensures out <= EmittedFor(t.emitted, s.nextRequest)
    ensures t.endings[|t.endings| - 1].outcome.Completed? ==> out == EmittedFor(t.emitted, s.nextRequest)
  {
    NothingForNew(s.emitted, s.yielded, s.nextRequest);
    assert [] + out == out;
  }

  class StreamClient {
    var sockets: seq<Socket>
    var streamWs: Option<SocketId>
    var call: Call
    var nextRequest: Request
    var emitted: seq<Emission>
    var yielded: seq<Delivery>
    var endings: seq<Ending>
    var doneSent: set<Request>
    var doneRead: set<Request>
    var errorRead: set<Request>

    function View(): State
      reads this
    {
      State(sockets, streamWs, call, nextRequest, emitted, yielded, endings, doneSent, doneRead, errorRead)
    }

    /** The cached socket exists, a call that receives does so on it, and it has not read `done` yet. */
    predicate Linked()
      reads this
    {
      && (streamWs.Some? ==> streamWs.value < |sockets|)
      && (call.Receiving? ==> streamWs == Some(call.ws))
      && (forall r :: r in doneRead ==> r < nextRequest)
      && (!call.Idle? ==> call.request < nextRequest && call.request !in doneRead)
    }

    /** The latest call to end is `r`, and it ended as completed exactly if `done` was read during it. */
    predicate Ended(r: Request)
      reads this
    {
      EndsWith(r) && (EndsCompleted() <==> r in doneRead)
    }

    /** The latest call to end is `r`. */
    predicate EndsWith(r: Request)
      reads this
    {
      endings != [] && endings[|endings| - 1].request == r
    }

    predicate EndsCompleted()
      reads this
    {
      endings != [] && endings[|endings| - 1].outcome.Completed?
    }

    constructor ()
      ensures Linked() && View() == INIT
    {
      sockets, streamWs, call, nextRequest := [], None, Idle, 0;
      emitted, yielded, endings := [], [], [];
      doneSent, doneRead, errorRead := {}, {}, {};
    }

    /** `_close_stream_ws`. */
    method CloseStreamWs()
      requires streamWs.Some? ==> streamWs.value < |sockets|
      modifies this`sockets, this`streamWs
      ensures View() == CloseCached(old(View())) && streamWs.None?
    {
      var ws := streamWs;
      streamWs := None;
      if ws.Some? {
        sockets := sockets[ws.value := sockets[ws.value].(open := false)];
      }
    }

    /** `_ensure_stream_ws`; no socket if connecting fails. */
    method EnsureStreamWs(forceNew: bool, stale: bool, connects: bool) returns (ws: Option<SocketId>)
      requires streamWs.Some? ==> streamWs.value < |sockets|
      modifies this`sockets, this`streamWs
      ensures var s := if forceNew then CloseCached(old(View())) else old(View());
              && View() == (if LooksOpen(s, stale) || connects then EnsureSocket(s, stale) else CloseCached(s))
              && ws == streamWs && (ws.Some? ==> ws.value < |sockets|)
    {
      if forceNew && streamWs.Some? {
        CloseStreamWs();
      }
      if streamWs.Some? && (stale || sockets[streamWs.value].open) {
        return streamWs;
      }
      if streamWs.Some? {
        CloseStreamWs();
      }
      if connects {
        streamWs, sockets := Some(|sockets|), sockets + [CONNECTED];
      }
      ws := streamWs;
    }

    /** The sends of a call, with one reconnect. */
    method SendRequest(result: SendResult, stale: bool)
      requires Linked() && call.Starting?
      modifies this`sockets, this`streamWs, this`call, this`endings
      ensures Linked() && View() == DoSend(old(View()), result, stale)
      ensures if Sends(result) then call.Receiving? && call.request == old(call).request
              else call.Idle? && Ended(old(call).request)
    {
      var ws := EnsureStreamWs(false, stale, !result.NotConnected?);
      if result.SentAfterReconnect? || result.RefusedAfterReconnect? || result.NotReconnected? {
        ws := EnsureStreamWs(true, false, !result.NotReconnected?);
      }
      if Sends(result) {
        var sock := sockets[ws.value];
        sockets := sockets[ws.value := sock.(requests := sock.requests + [call.request])];
        call := Receiving(call.request, ws.value);
      } else {
        Release(SendFailed);
      }
    }

    /** The call gives the lock back. */
    method Release(outcome: Outcome)
      requires !call.Idle?
      modifies this`call, this`endings
      ensures View() == EndCall(old(View()), outcome)
    {
      endings := endings + [Ending(call.request, outcome)];
      call := Idle;
    }

    /** The lock is taken and the request sent, or not. */
    method BeginCall(result: SendResult, stale: bool) returns (ghost labels: seq<Label>)
      requires Linked() && call.Idle?
      modifies this
      ensures Linked() && View() == Run(old(View()), labels) && yielded == old(yielded)
      ensures if Sends(result) then call.Receiving? && call.request == old(nextRequest)
              else call.Idle? && Ended(old(nextRequest))
    {
      labels := [Begin] + [Send(result, stale)];
      ghost var s := View();
      TakeLock();
      SendRequest(result, stale);
      BeginAndSend(s, View(), result, stale);
    }

    method TakeLock()
      requires Linked() && call.Idle?
      modifies this`call, this`nextRequest
      ensures Linked() && View() == Begun(old(View())) && call == Starting(old(nextRequest))
    {
      call, nextRequest := Starting(nextRequest), nextRequest + 1;
    }

    /** Network and server go on while the client waits. */
    method Surroundings(labels: seq<Label>)
      requires Linked() && AllOutside(labels)
      modifies this`sockets, this`emitted, this`doneSent
      ensures Linked() && View() == Run(old(View()), labels)
    {
      OutsideKeeps(View(), labels);
      var t := Run(View(), labels);
      sockets, emitted, doneSent := t.sockets, t.emitted, t.doneSent;
    }

    /** One turn of the receive loop: a message, the end of the stream, or nothing yet. */
    method ReceiveTurn() returns (frame: Option<Pcm>, ghost l: Label)
      requires Linked() && call.Receiving?
      modifies this`sockets, this`streamWs, this`call, this`yielded, this`endings, this`doneRead, this`errorRead
      ensures Linked() && View() == Step(old(View()), l)
      ensures if frame.Some? then |yielded| == |old(yielded)| + 1
                                  && yielded == old(yielded) + [Delivery(old(call).request, yielded[|old(yielded)|].answers, frame.value)]
              else yielded == old(yielded)
      ensures if call.Idle? then Ended(old(call).request) && (streamWs.Some? ==> EndsCompleted())
              else call == old(call)
    {
      frame, l := None, Receive;
      var ws := call.ws;
      var sock := sockets[ws];
      if sock.replies == [] {
        if !sock.open {
          l := EndOfStream;
          CloseStreamWs();
          Release(Truncated);
        }
        return;
      }
      sockets := sockets[ws := sock.(replies := sock.replies[1..])];
      match sock.replies[0]
      case Audio(pcm, tag) =>
        if pcm != [] {
          frame := Some(pcm);
          yielded := yielded + [Delivery(call.request, tag, pcm)];
        }
      case Done(_) =>
        doneRead := doneRead + {call.request};
        Release(Completed);
      case Error =>
        errorRead := errorRead + {call.request};
        CloseStreamWs();
        Release(Errored);
      case Other =>
    }

    /** The surroundings act, and then the client looks for a message. */
    method AwaitMessage(turn: seq<Label>) returns (frame: Option<Pcm>, ghost labels: seq<Label>)
      requires Linked() && call.Receiving? && AllOutside(turn)
      modifies this`sockets, this`streamWs, this`call, this`emitted, this`yielded, this`endings
      modifies this`doneSent, this`doneRead, this`errorRead
      ensures Linked() && View() == Run(old(View()), labels)
      ensures YieldedTo(yielded, old(call).request)
              == YieldedTo(old(yielded), old(call).request) + if frame.Some? then [frame.value] else []
      ensures if call.Idle? then Ended(old(call).request) && (streamWs.Some? ==> EndsCompleted())
              else call == old(call)
    {
      ghost var s, r := View(), call.request;
      Surroundings(turn);
      ghost var l;
      frame, l := ReceiveTurn();
      labels := turn + [l];
      RunOne(s, turn, l);
      if frame.Some? {
        YieldedSnoc(old(yielded), yielded[|old(yielded)|], r);
      }
    }

    /** The consumer drops the generator, and `finally` closes the socket. */
    method DropGenerator()
      requires Linked() && call.Receiving?
      modifies this`sockets, this`streamWs, this`call, this`endings
      ensures Linked() && View() == Step(old(View()), Abandon)
      ensures call.Idle? && Ended(old(call).request) && streamWs.None?
    {
      CloseStreamWs();
      Release(Abandoned);
    }

    /** The receive loop: the frames yielded, and how it ends. */
    method ReceiveLoop(turns: seq<seq<Label>>) returns (out: seq<Pcm>, ghost labels: seq<Label>)
      requires Linked() && call.Receiving? && forall i :: 0 <= i < |turns| ==> AllOutside(turns[i])
      modifies this`sockets, this`streamWs, this`call, this`emitted, this`yielded, this`endings
      modifies this`doneSent, this`doneRead, this`errorRead
      ensures Linked() && View() == Run(old(View()), labels)
      ensures YieldedTo(yielded, old(call).request) == YieldedTo(old(yielded), old(call).request) + out
      ensures call.Idle? && Ended(old(call).request) && (streamWs.Some? ==> EndsCompleted())
    {
      ghost var s, r := View(), call.request;
      ghost var before := YieldedTo(yielded, r);
      out, labels := [], [];
      assert before + [] == before;
      var i := 0;
      while i < |turns| && !call.Idle?
        invariant Linked() && View() == Run(s, labels) && YieldedTo(yielded, r) == before + out
        invariant if call.Idle? then Ended(r) && (streamWs.Some? ==> EndsCompleted())
                  else call.Receiving? && call.request == r
      {
        var frame, more := AwaitMessage(turns[i]);
        RunConcat(s, labels, more);
        labels := labels + more;
        var piece := if frame.Some? then [frame.value] else [];
        Assoc(before, out, piece);
        out := out + piece;
        i := i + 1;
      }
      if !call.Idle? {
        DropGenerator();
        RunOne(s, labels, Abandon);
        labels := labels + [Abandon];
      }
    }

    /**
     `synthesize_stream` for a consumer that reads for `|turns|` turns at most and then drops the
     generator: a run of the step relation, whatever network and server do in the meantime.  It
     yields `out` to this call alone and ends the call, as completed exactly if `done` was read;
     once the request was sent, only a completed call leaves a socket to reuse.
     */
    method SynthesizeStream(result: SendResult, stale: bool, turns: seq<seq<Label>>)
      returns (out: seq<Pcm>, ghost labels: seq<Label>)
      requires Linked() && call.Idle? && forall i :: 0 <= i < |turns| ==> AllOutside(turns[i])
      modifies this
      ensures Linked() && View() == Run(old(View()), labels)
      ensures YieldedTo(yielded, old(nextRequest)) == YieldedTo(old(yielded), old(nextRequest)) + out
      ensures call.Idle? && Ended(old(nextRequest))
      ensures Sends(result) && streamWs.Some? ==> EndsCompleted()
    {
      ghost var s := View();
      labels := BeginCall(result, stale);
      out := [];
      if call.Receiving? {
        ghost var more;
        out, more := ReceiveLoop(turns);
        RunConcat(s, labels, more);
        labels := labels + more;
      }
    }
  }
}
