/**
 Reuse of the streaming TTS WebSocket (`HttpTTSClient.synthesize_stream`): one cached socket per
 session, kept only after a finished utterance, against a server that answers each socket's
 requests in order and may fail or drop the connection at any time.
 */
module TtsSocket {
  import opened Text

  type Pcm = seq<int>

  type Request = nat

  type SocketId = nat

  /**
   A message of the server.  Audio carries the request it answers; the client cannot see that
   tag, it only serves to state where audio came from.
   */
  datatype Message =
    | Audio(pcm: Pcm, request: Request)
    | Done(request: Request)
    | Error
    | Other                                    // unparseable, or of another type: skipped

  /** One connection: both directions in order, and what the server is working on. */
  datatype Socket = Socket(open: bool, requests: seq<Request>, serving: Option<Request>, replies: seq<Message>)

  const CONNECTED: Socket := Socket(true, [], None, [])

  /** The call that holds `_stream_lock`. */
  datatype Call =
    | Idle
    | Starting(request: Request)               // about to pick a socket and send
    | Receiving(request: Request, ws: SocketId)

  /** How a call came to its end. */
  datatype Outcome = Completed | Truncated | Errored | Abandoned | SendFailed

  datatype Ending = Ending(request: Request, outcome: Outcome)

  /** Audio the server sent in answer to `request`. */
  datatype Emission = Emission(request: Request, pcm: Pcm)

  /** Audio the client yielded to the call `to`; the server had sent it in answer to `answers`. */
  datatype Delivery = Delivery(to: Request, answers: Request, pcm: Pcm)

  /**
   Client, sockets and server, with a history: emissions, deliveries, call endings, the requests
   the server has sent `done` for, and the calls during which `done` or `error` was read.
   */
  datatype State = State(
    sockets: seq<Socket>, cached: Option<SocketId>, call: Call, nextRequest: Request,
    emitted: seq<Emission>, yielded: seq<Delivery>, endings: seq<Ending>,
    doneSent: set<Request>, doneRead: set<Request>, errorRead: set<Request>)

  const INIT: State := State([], None, Idle, 0, [], [], [], {}, {}, {})

  /** How the sends of one call go: at once, after one reconnect, or not at all. */
  datatype SendResult =
    | SentAtOnce
    | SentAfterReconnect
    | RefusedAtOnce                            // the first send raises, and not because the socket is closed
    | RefusedAfterReconnect                    // the second send raises
    | NotReconnected                           // the reconnect raises
    | NotConnected                             // the first connect raises; with an open socket, as RefusedAtOnce

  datatype Label =
    | Begin                                    // a call takes the lock
    | Send(result: SendResult, stale: bool)    // it picks a socket and sends; `stale`: a closed one still looks open
    | Receive                                  // it reads the next message
    | EndOfStream                              // the socket is closed and drained: truncation
    | Abandon                                  // the consumer drops the generator
    | Drop(ws: SocketId)                       // the network closes a connection
    | Serve(ws: SocketId)                      // the server takes the next request of a connection
    | Emit(ws: SocketId, pcm: Pcm)             // ... sends audio for it
    | Chatter(ws: SocketId)                    // ... sends something the client skips
    | Finish(ws: SocketId)                     // ... sends `done`
    | Fail(ws: SocketId)                       // the server sends `error`, solicited or not, and gives up

  // ---------------------------------------------------------------- the client

  function CloseSocket(s: State, ws: SocketId): State
    requires ws < |s.sockets|
  {
    s.(sockets := s.sockets[ws := s.sockets[ws].(open := false)])
  }

  /** `_close_stream_ws`. */
  function CloseCached(s: State): State {
    match s.cached
    case Some(ws) => if ws < |s.sockets| then CloseSocket(s, ws).(cached := None) else s.(cached := None)
    case None => s
  }

  /** `_ws_is_open`, which may lag behind the network. */
  predicate LooksOpen(s: State, stale: bool) {
    s.cached.Some? && s.cached.value < |s.sockets| && (stale || s.sockets[s.cached.value].open)
  }

  function Connect(s: State): State {
    s.(sockets := s.sockets + [CONNECTED], cached := Some(|s.sockets|))
  }

  /** `_ensure_stream_ws`: reuse a cached socket that looks open, else drop it and connect. */
  function EnsureSocket(s: State, stale: bool): State {
    if LooksOpen(s, stale) then s else Connect(CloseCached(s))
  }

  /** A send that reaches the socket. */
  function SendOn(s: State, ws: SocketId, r: Request): State
    requires ws < |s.sockets|
  {
    var sock := s.sockets[ws];
    s.(sockets := s.sockets[ws := sock.(requests := sock.requests + [r])], call := Receiving(r, ws))
  }

  function EndCall(s: State, outcome: Outcome): State
    requires !s.call.Idle?
  {
    s.(call := Idle, endings := s.endings + [Ending(s.call.request, outcome)])
  }

  function DoSend(s: State, result: SendResult, stale: bool): State
    requires s.call.Starting?
  {
    var r := s.call.request;
    var first := EnsureSocket(s, stale);
    var again := Connect(CloseCached(first));
    match result
    case SentAtOnce => SendOn(first, first.cached.value, r)
    case RefusedAtOnce => EndCall(first, SendFailed)
    case SentAfterReconnect => SendOn(again, again.cached.value, r)
    case RefusedAfterReconnect => EndCall(again, SendFailed)
    case NotReconnected => EndCall(CloseCached(first), SendFailed)
    case NotConnected => EndCall(if LooksOpen(s, stale) then s else CloseCached(s), SendFailed)
  }

  /** One turn of the receive loop; only `done` leaves the socket cached. */
  function DoReceive(s: State): State
    requires s.call.Receiving? && s.call.ws < |s.sockets| && s.sockets[s.call.ws].replies != []
  {
    var ws := s.call.ws;
    var sock := s.sockets[ws];
    var m := sock.replies[0];
    var read := s.(sockets := s.sockets[ws := sock.(replies := sock.replies[1..])]);
    match m
    case Audio(pcm, tag) =>
      if pcm == [] then read else read.(yielded := read.yielded + [Delivery(s.call.request, tag, pcm)])
    case Done(_) => EndCall(read.(doneRead := read.doneRead + {s.call.request}), Completed)
    case Error => EndCall(CloseCached(read.(errorRead := read.errorRead + {s.call.request})), Errored)
    case Other => read
  }

  // ---------------------------------------------------------------- the server

  predicate Reachable(s: State, ws: SocketId) {
    ws < |s.sockets| && s.sockets[ws].open
  }

  function Reply(s: State, ws: SocketId, m: Message): State
    requires ws < |s.sockets|
  {
    var sock := s.sockets[ws];
    s.(sockets := s.sockets[ws := sock.(replies := sock.replies + [m])],
       emitted := if m.Audio? && m.pcm != [] then s.emitted + [Emission(m.request, m.pcm)] else s.emitted)
  }

  function Step(s: State, l: Label): State {
    match l
    case Begin => if s.call.Idle? then s.(call := Starting(s.nextRequest), nextRequest := s.nextRequest + 1) else s
    case Send(result, stale) => if s.call.Starting? then DoSend(s, result, stale) else s
    case Receive =>
      if s.call.Receiving? && s.call.ws < |s.sockets| && s.sockets[s.call.ws].replies != [] then DoReceive(s) else s
    case EndOfStream =>
      if s.call.Receiving? && s.call.ws < |s.sockets| && !s.sockets[s.call.ws].open
         && s.sockets[s.call.ws].replies == []
      then EndCall(CloseCached(s), Truncated) else s
    case Abandon => if s.call.Receiving? then EndCall(CloseCached(s), Abandoned) else s
    case Drop(ws) => if ws < |s.sockets| then CloseSocket(s, ws) else s
    case Serve(ws) =>
      if Reachable(s, ws) && s.sockets[ws].serving.None? && s.sockets[ws].requests != [] then
        var sock := s.sockets[ws];
        s.(sockets := s.sockets[ws := sock.(serving := Some(sock.requests[0]), requests := sock.requests[1..])])
      else s
    case Emit(ws, pcm) =>
      if Reachable(s, ws) && s.sockets[ws].serving.Some? then Reply(s, ws, Audio(pcm, s.sockets[ws].serving.value)) else s
    case Chatter(ws) => if Reachable(s, ws) then Reply(s, ws, Other) else s
    case Finish(ws) =>
      if Reachable(s, ws) && s.sockets[ws].serving.Some? then
        var t := Reply(s, ws, Done(s.sockets[ws].serving.value));
        t.(sockets := t.sockets[ws := t.sockets[ws].(serving := None)],
           doneSent := t.doneSent + {s.sockets[ws].serving.value})
      else s
    case Fail(ws) =>
      if Reachable(s, ws) then CloseSocket(Reply(s, ws, Error), ws) else s
  }

  function Run(s: State, labels: seq<Label>): State {
    if labels == [] then s else Step(Run(s, labels[..|labels| - 1]), labels[|labels| - 1])
  }

  // ---------------------------------------------------------------- what a socket may hold

  /** Nothing a receive loop would yield or stop at as success. */
  predicate Quiet(replies: seq<Message>) {
    forall i :: 0 <= i < |replies| ==> replies[i].Other? || replies[i].Error?
  }

  /** Audio for `r` only, and no `done` yet. */
  predicate Partway(replies: seq<Message>, r: Request) {
    forall i :: 0 <= i < |replies| ==> !replies[i].Done? && (replies[i].Audio? ==> replies[i].request == r)
  }

  /** Audio for `r`, then its `done`, then nothing that matters. */
  predicate Concluded(replies: seq<Message>, r: Request) {
    replies != []
    && match replies[0]
       case Audio(_, q) => q == r && Concluded(replies[1..], r)
       case Done(q) => q == r && Quiet(replies[1..])
       case _ => Concluded(replies[1..], r)
  }

  /** Fit for reuse: no request outstanding and nothing unread. */
  predicate Clean(sock: Socket) {
    sock.requests == [] && sock.serving.None? && Quiet(sock.replies)
  }

  /** Devoted to `r`: not taken up yet, being answered, or answered. */
  predicate Devoted(sock: Socket, r: Request) {
    || (sock.requests == [r] && sock.serving.None? && Quiet(sock.replies))
    || (sock.requests == [] && sock.serving == Some(r) && Partway(sock.replies, r))
    || (sock.requests == [] && sock.serving.None? && Concluded(sock.replies, r))
  }

  lemma {:induction false} ConcludedSnoc(replies: seq<Message>, r: Request, m: Message)
    ensures m.Done? && m.request == r && Partway(replies, r) ==> Concluded(replies + [m], r)
    ensures (m.Other? || m.Error?) && Concluded(replies, r) ==> Concluded(replies + [m], r)
  {
    if replies != [] {
      assert (replies + [m])[1..] == replies[1..] + [m];
      ConcludedSnoc(replies[1..], r, m);
    }
  }

  /** The audio waiting in a socket. */
  function Waiting(replies: seq<Message>): seq<Pcm> {
    if replies == [] then [] else
    (if replies[0].Audio? && replies[0].pcm != [] then [replies[0].pcm] else []) + Waiting(replies[1..])
  }

  lemma {:induction false} WaitingSnoc(replies: seq<Message>, m: Message)
    ensures Waiting(replies + [m]) == Waiting(replies) + if m.Audio? && m.pcm != [] then [m.pcm] else []
  {
    if replies == [] {
      assert replies + [m] == [m];
    } else {
      WaitingSnoc(replies[1..], m);
      assert (replies + [m])[1..] == replies[1..] + [m];
    }
  }

  lemma {:induction false} QuietHasNoAudio(replies: seq<Message>)
    requires Quiet(replies)
    ensures Waiting(replies) == []
  {
    if replies != [] {
      QuietHasNoAudio(replies[1..]);
    }
  }

  // ---------------------------------------------------------------- the protocol invariant

  /** Only the cached socket is open; between calls it is clean, during a call it serves that call alone. */
  predicate SocketInv(s: State) {
    && (s.cached.Some? ==> s.cached.value < |s.sockets|)
    && (forall ws :: 0 <= ws < |s.sockets| && s.sockets[ws].open ==> s.cached == Some(ws))
    && (match s.call
        case Receiving(r, ws) => s.cached == Some(ws) && Devoted(s.sockets[ws], r)
        case _ => s.cached.Some? ==> Clean(s.sockets[s.cached.value]))
  }

  lemma SendKeeps(s: State, result: SendResult, stale: bool)
    requires SocketInv(s) && s.call.Starting?
    ensures SocketInv(DoSend(s, result, stale))
  {
    EnsureKeeps(s, stale);
    ConnectKeeps(EnsureSocket(s, stale));
  }

  lemma ConnectKeeps(s: State)
    requires SocketInv(s) && s.call.Starting?
    ensures var t := Connect(CloseCached(s));
            SocketInv(t) && t.cached.Some? && t.call == s.call
  {
  }

  lemma EnsureKeeps(s: State, stale: bool)
    requires SocketInv(s) && s.call.Starting?
    ensures var t := EnsureSocket(s, stale);
            SocketInv(t) && t.cached.Some? && t.call == s.call
  {
    ConnectKeeps(s);
  }

  lemma ReceiveKeeps(s: State)
    requires SocketInv(s) && s.call.Receiving? && s.sockets[s.call.ws].replies != []
    ensures SocketInv(DoReceive(s))
  {
  }

  lemma ReplyKeeps(s: State, ws: SocketId, m: Message)
    requires SocketInv(s) && Reachable(s, ws)
    requires m.Done? ==> s.sockets[ws].serving == Some(m.request)
    requires m.Audio? ==> s.sockets[ws].serving == Some(m.request)
    ensures var t := Reply(s, ws, m);
            SocketInv(if m.Done? then t.(sockets := t.sockets[ws := t.sockets[ws].(serving := None)]) else t)
  {
    if s.call.Receiving? {
      ConcludedSnoc(s.sockets[ws].replies, s.call.request, m);
    }
  }

  lemma SocketStep(s: State, l: Label)
    requires SocketInv(s)
    ensures SocketInv(Step(s, l))
  {
    match l
    case Send(result, stale) => if s.call.Starting? { SendKeeps(s, result, stale); }
    case Receive => if s.call.Receiving? && s.sockets[s.call.ws].replies != [] { ReceiveKeeps(s); }
    case Emit(ws, pcm) =>
      if Reachable(s, ws) && s.sockets[ws].serving.Some? {
        ReplyKeeps(s, ws, Audio(pcm, s.sockets[ws].serving.value));
      }
    case Chatter(ws) => if Reachable(s, ws) { ReplyKeeps(s, ws, Other); }
    case Finish(ws) =>
      if Reachable(s, ws) && s.sockets[ws].serving.Some? {
        ReplyKeeps(s, ws, Done(s.sockets[ws].serving.value));
      }
    case Fail(ws) => if Reachable(s, ws) { ReplyKeeps(s, ws, Error); }
    case _ =>
  }

  // ---------------------------------------------------------------- whose audio is whose

  /** The audio the server sent in answer to `r`. */
  function EmittedFor(es: seq<Emission>, r: Request): seq<Pcm> {
    if es == [] then [] else
    var last := es[|es| - 1];
    EmittedFor(es[..|es| - 1], r) + if last.request == r then [last.pcm] else []
  }

  /** The audio yielded to the call `r`. */
  function YieldedTo(ds: seq<Delivery>, r: Request): seq<Pcm> {
    if ds == [] then [] else
    var last := ds[|ds| - 1];
    YieldedTo(ds[..|ds| - 1], r) + if last.to == r then [last.pcm] else []
  }

  lemma EmittedSnoc(es: seq<Emission>, e: Emission, r: Request)
    ensures EmittedFor(es + [e], r) == EmittedFor(es, r) + if e.request == r then [e.pcm] else []
  {
    assert (es + [e])[..|es|] == es;
  }

  lemma YieldedSnoc(ds: seq<Delivery>, d: Delivery, r: Request)
    ensures YieldedTo(ds + [d], r) == YieldedTo(ds, r) + if d.to == r then [d.pcm] else []
  {
    assert (ds + [d])[..|ds|] == ds;
  }

  lemma {:induction false} NothingForNew(es: seq<Emission>, ds: seq<Delivery>, r: Request)
    requires forall i :: 0 <= i < |es| ==> es[i].request < r
    requires forall i :: 0 <= i < |ds| ==> ds[i].to < r
    ensures EmittedFor(es, r) == [] && YieldedTo(ds, r) == []
    decreases |es| + |ds|
  {
    if es != [] {
      NothingForNew(es[..|es| - 1], ds, r);
    } else if ds != [] {
      NothingForNew(es, ds[..|ds| - 1], r);
    }
  }

  /** Requests are numbered freshly, and a call that goes on has not ended. */
  predicate NumberInv(s: State) {
    && (forall i :: 0 <= i < |s.emitted| ==> s.emitted[i].request < s.nextRequest)
    && (forall i :: 0 <= i < |s.yielded| ==> s.yielded[i].to < s.nextRequest)
    && (forall i :: 0 <= i < |s.endings| ==>
          s.endings[i].request < s.nextRequest && (s.call.Idle? || s.endings[i].request != s.call.request))
    && (!s.call.Idle? ==> s.call.request < s.nextRequest)
  }

  /** What has been sent for `r` and not yet yielded to it. */
  ghost function Unread(s: State, r: Request): seq<Pcm>
    requires SocketInv(s)
  {
    if s.call.Receiving? && s.call.request == r then Waiting(s.sockets[s.call.ws].replies) else []
  }

  /** Each yielded frame answers the call it is yielded to; nothing overtakes or vanishes. */
  ghost predicate AudioInv(s: State)
    requires SocketInv(s)
  {
    && (forall i :: 0 <= i < |s.yielded| ==> s.yielded[i].answers == s.yielded[i].to)
    && (forall r :: YieldedTo(s.yielded, r) <= EmittedFor(s.emitted, r))
    && (!s.call.Idle? ==>
          EmittedFor(s.emitted, s.call.request) == YieldedTo(s.yielded, s.call.request) + Unread(s, s.call.request))
    && (forall i :: 0 <= i < |s.endings| && s.endings[i].outcome.Completed? ==>
          YieldedTo(s.yielded, s.endings[i].request) == EmittedFor(s.emitted, s.endings[i].request))
  }

  ghost predicate Inv(s: State) {
    SocketInv(s) && NumberInv(s) && AudioInv(s)
  }

  /** Steps that neither emit nor yield audio. */
  lemma AudioKept(s: State, t: State)
    requires Inv(s) && SocketInv(t) && t.emitted == s.emitted && t.yielded == s.yielded
    requires s.nextRequest <= t.nextRequest
    requires t.call == s.call && t.endings == s.endings && (!t.call.Idle? ==> Unread(t, t.call.request) == Unread(s, t.call.request))
    ensures Inv(t)
  {
  }

  lemma CallEnds(s: State, t: State, outcome: Outcome)
    requires Inv(s) && SocketInv(t) && t.emitted == s.emitted && t.yielded == s.yielded
    requires !s.call.Idle? && t.call.Idle? && t.nextRequest == s.nextRequest
    requires t.endings == s.endings + [Ending(s.call.request, outcome)]
    requires outcome.Completed? ==> Unread(s, s.call.request) == []
    ensures Inv(t)
  {
  }

  lemma BeginAudio(s: State)
    requires Inv(s) && s.call.Idle?
    ensures Inv(Step(s, Begin))
  {
    SocketStep(s, Begin);
    NothingForNew(s.emitted, s.yielded, s.nextRequest);
  }

  /** A request on its way finds a socket without audio. */
  lemma CallReceives(s: State, t: State)
    requires Inv(s) && SocketInv(t) && s.call.Starting? && t.call.Receiving? && t.call.request == s.call.request
    requires t.emitted == s.emitted && t.yielded == s.yielded && t.endings == s.endings && t.nextRequest == s.nextRequest
    requires Quiet(t.sockets[t.call.ws].replies)
    ensures Inv(t)
  {
    QuietHasNoAudio(t.sockets[t.call.ws].replies);
  }

  /** What sending leaves alone, and how it ends. */
  lemma SendFrame(s: State, result: SendResult, stale: bool)
    requires SocketInv(s) && s.call.Starting?
    ensures var t := DoSend(s, result, stale);
            && t.emitted == s.emitted && t.yielded == s.yielded && t.nextRequest == s.nextRequest
            && (|| (t.call.Idle? && t.endings == s.endings + [Ending(s.call.request, SendFailed)])
                || (&& t.call.Receiving? && t.call.request == s.call.request && t.endings == s.endings
                    && t.call.ws < |t.sockets| && Quiet(t.sockets[t.call.ws].replies)))
  {
    EnsureKeeps(s, stale);
    ConnectKeeps(EnsureSocket(s, stale));
  }

  lemma SendAudio(s: State, result: SendResult, stale: bool)
    requires Inv(s) && s.call.Starting?
    ensures Inv(DoSend(s, result, stale))
  {
    SendKeeps(s, result, stale);
    SendFrame(s, result, stale);
    var t := DoSend(s, result, stale);
    if t.call.Idle? {
      CallEnds(s, t, SendFailed);
    } else {
      CallReceives(s, t);
    }
  }

  lemma ReceiveAudio(s: State)
    requires Inv(s) && s.call.Receiving? && s.sockets[s.call.ws].replies != []
    ensures Inv(DoReceive(s))
  {
    ReceiveKeeps(s);
    var t, sock, r := DoReceive(s), s.sockets[s.call.ws], s.call.request;
    var m := sock.replies[0];
    match m
    case Audio(pcm, q) =>
      if pcm == [] {
        AudioKept(s, t);
      } else {
        DeliverAudio(s, t, pcm);
      }
    case Done(_) =>
      QuietHasNoAudio(sock.replies[1..]);
      CallEnds(s, t, Completed);
    case Error => CallEnds(s, t, Errored);
    case Other => AudioKept(s, t);
  }

  lemma DeliverAudio(s: State, t: State, pcm: Pcm)
    requires Inv(s) && SocketInv(t) && s.call.Receiving? && t.call == s.call
    requires t.emitted == s.emitted && t.endings == s.endings && t.nextRequest == s.nextRequest
    requires t.yielded == s.yielded + [Delivery(s.call.request, s.call.request, pcm)]
    requires Unread(s, s.call.request) == [pcm] + Unread(t, s.call.request)
    ensures Inv(t)
  {
    var r := s.call.request;
    forall q
      ensures YieldedTo(t.yielded, q) == YieldedTo(s.yielded, q) + if q == r then [pcm] else []
    {
      YieldedSnoc(s.yielded, Delivery(r, r, pcm), q);
    }
    Assoc(YieldedTo(s.yielded, r), [pcm], Unread(t, r));
  }

  lemma EmitAudio(s: State, ws: SocketId, pcm: Pcm)
    requires Inv(s) && Reachable(s, ws) && s.sockets[ws].serving.Some?
    ensures Inv(Step(s, Emit(ws, pcm)))
  {
    var r := s.call.request;
    var m := Audio(pcm, r);
    ReplyKeeps(s, ws, m);
    var t := Step(s, Emit(ws, pcm));
    WaitingSnoc(s.sockets[ws].replies, m);
    if pcm == [] {
      AudioKept(s, t);
    } else {
      AudioEmitted(s, t, pcm);
    }
  }

  lemma AudioEmitted(s: State, t: State, pcm: Pcm)
    requires Inv(s) && SocketInv(t) && s.call.Receiving? && t.call == s.call
    requires t.yielded == s.yielded && t.endings == s.endings && t.nextRequest == s.nextRequest
    requires t.emitted == s.emitted + [Emission(s.call.request, pcm)]
    requires Unread(t, s.call.request) == Unread(s, s.call.request) + [pcm]
    ensures Inv(t)
  {
    var r := s.call.request;
    forall q
      ensures EmittedFor(t.emitted, q) == EmittedFor(s.emitted, q) + if q == r then [pcm] else []
    {
      EmittedSnoc(s.emitted, Emission(r, pcm), q);
    }
    Assoc(YieldedTo(s.yielded, r), Unread(s, r), [pcm]);
  }

  /** A message without audio leaves the unread audio as it is. */
  lemma SilentReply(s: State, t: State, ws: SocketId, m: Message)
    requires SocketInv(s) && SocketInv(t) && s.call == t.call && ws < |s.sockets| == |t.sockets| && !m.Audio?
    requires forall i :: 0 <= i < |s.sockets| ==>
               t.sockets[i].replies == if i == ws then s.sockets[i].replies + [m] else s.sockets[i].replies
    ensures !s.call.Idle? ==> Unread(t, s.call.request) == Unread(s, s.call.request)
  {
    if s.call.Receiving? {
      WaitingSnoc(s.sockets[s.call.ws].replies, m);
    }
  }

  lemma ServerKeepsUnread(s: State, l: Label)
    requires Inv(s) && (l.Drop? || l.Serve? || l.Chatter? || l.Finish? || l.Fail?)
    requires SocketInv(Step(s, l))
    ensures var t := Step(s, l);
            && t.emitted == s.emitted && t.yielded == s.yielded && t.nextRequest == s.nextRequest
            && t.call == s.call && t.endings == s.endings
            && (!t.call.Idle? ==> Unread(t, t.call.request) == Unread(s, t.call.request))
  {
    var t := Step(s, l);
    if t != s {
      match l
      case Drop(ws) =>
      case Serve(ws) =>
      case Chatter(ws) => SilentReply(s, t, ws, Other);
      case Finish(ws) => SilentReply(s, t, ws, Done(s.sockets[ws].serving.value));
      case Fail(ws) => SilentReply(s, t, ws, Error);
    }
  }

  lemma ServerAudio(s: State, l: Label)
    requires Inv(s) && (l.Drop? || l.Serve? || l.Chatter? || l.Finish? || l.Fail?)
    ensures Inv(Step(s, l))
  {
    SocketStep(s, l);
    ServerKeepsUnread(s, l);
    AudioKept(s, Step(s, l));
  }

  lemma StepKeeps(s: State, l: Label)
    requires Inv(s)
    ensures Inv(Step(s, l))
  {
    SocketStep(s, l);
    var t := Step(s, l);
    if t == s {
      return;
    }
    match l
    case Begin => BeginAudio(s);
    case Send(result, stale) => SendAudio(s, result, stale);
    case Receive => ReceiveAudio(s);
    case EndOfStream => CallEnds(s, t, Truncated);
    case Abandon => CallEnds(s, t, Abandoned);
    case Emit(ws, pcm) => EmitAudio(s, ws, pcm);
    case _ => ServerAudio(s, l);
  }

  /**
   Over every run of completed, truncated, failed, reconnected and abandoned calls: the cached
   socket is clean between calls, every frame yielded to a call was sent in answer to that call,
   in order, and a completed call has received everything sent for it.
   */
  lemma {:induction false} AudioReachesItsCall(labels: seq<Label>)
    ensures Inv(Run(INIT, labels))
  {
    if labels != [] {
      AudioReachesItsCall(labels[..|labels| - 1]);
      StepKeeps(Run(INIT, labels[..|labels| - 1]), labels[|labels| - 1]);
    }
  }

  // ---------------------------------------------------------------- how calls end

  /** What a label makes of a call that it ends. */
  predicate Cause(o: Outcome, l: Label) {
    match o
    case Completed => l.Receive?
    case Errored => l.Receive?
    case Truncated => l.EndOfStream?
    case Abandoned => l.Abandon?
    case SendFailed => l.Send? && !l.result.SentAtOnce? && !l.result.SentAfterReconnect?
  }

  /** The next message of the call, if there is one. */
  function NextMessage(s: State): Option<Message> {
    if s.call.Receiving? && s.call.ws < |s.sockets| && s.sockets[s.call.ws].replies != []
    then Some(s.sockets[s.call.ws].replies[0]) else None
  }

  /**
   A step ends the current call or no call, for its own reason: `done` completes it, `error` fails
   it, the end of a closed and drained stream truncates it, and a dropped generator abandons it.
   */
  lemma StepEnds(s: State, l: Label)
    ensures var t := Step(s, l);
            || t.endings == s.endings
            || (&& !s.call.Idle? && t.call.Idle? && |t.endings| == |s.endings| + 1
                && t.endings == s.endings + [Ending(s.call.request, t.endings[|s.endings|].outcome)]
                && Cause(t.endings[|s.endings|].outcome, l))
    ensures l.Receive? && NextMessage(s).Some? && NextMessage(s).value.Done? ==>
              Step(s, l).endings == s.endings + [Ending(s.call.request, Completed)]
    ensures l.Receive? && NextMessage(s).Some? && NextMessage(s).value.Error? ==>
              Step(s, l).endings == s.endings + [Ending(s.call.request, Errored)] && Step(s, l).cached.None?
    ensures l.Receive? && (NextMessage(s).None? || NextMessage(s).value.Audio? || NextMessage(s).value.Other?) ==>
              Step(s, l).endings == s.endings
  {
    if l.Send? && s.call.Starting? {
      SendEnds(s, l.result, l.stale);
    }
  }

  lemma SendEnds(s: State, result: SendResult, stale: bool)
    requires s.call.Starting?
    ensures var t := DoSend(s, result, stale);
            if result.SentAtOnce? || result.SentAfterReconnect? then t.endings == s.endings
            else t.call.Idle? && t.endings == s.endings + [Ending(s.call.request, SendFailed)]
  {
  }

  /** A stream that is closed and drained before `done` ends the call as truncated and gives the socket up. */
  lemma TruncationIsNoticed(s: State)
    requires s.call.Receiving? && s.call.ws < |s.sockets|
    requires !s.sockets[s.call.ws].open && s.sockets[s.call.ws].replies == []
    ensures var t := Step(s, EndOfStream);
            && t.endings == s.endings + [Ending(s.call.request, Truncated)]
            && t.cached.None? && t.doneRead == s.doneRead
  {
  }

  /** Every `done` that waits in a socket was sent by the server. */
  predicate DoneInv(s: State) {
    forall ws, i :: 0 <= ws < |s.sockets| && 0 <= i < |s.sockets[ws].replies| && s.sockets[ws].replies[i].Done? ==>
      s.sockets[ws].replies[i].request in s.doneSent
  }

  /**
   A call has ended as completed exactly if `done` was read during it, and as errored exactly if
   `error` was; a `done` that was read was sent by the server for this very request.
   */
  predicate OutcomeInv(s: State) {
    && s.doneRead <= s.doneSent
    && (forall r :: r in s.doneRead ==> r < s.nextRequest && (s.call.Idle? || r != s.call.request))
    && (forall r :: r in s.errorRead ==> r < s.nextRequest && (s.call.Idle? || r != s.call.request))
    && (forall i :: 0 <= i < |s.endings| ==>
          && (s.endings[i].outcome.Completed? <==> s.endings[i].request in s.doneRead)
          && (s.endings[i].outcome.Errored? <==> s.endings[i].request in s.errorRead))
  }

  /** The messages of every socket are as before, or one was added or read. */
  lemma DoneKept(s: State, t: State)
    requires DoneInv(s) && s.doneSent <= t.doneSent && |s.sockets| <= |t.sockets|
    requires forall ws :: 0 <= ws < |s.sockets| ==>
               forall i :: 0 <= i < |t.sockets[ws].replies| && t.sockets[ws].replies[i].Done? ==>
                 t.sockets[ws].replies[i] in s.sockets[ws].replies || t.sockets[ws].replies[i].request in t.doneSent
    requires forall ws :: |s.sockets| <= ws < |t.sockets| ==> t.sockets[ws].replies == []
    ensures DoneInv(t)
  {
  }

  lemma DoneStep(s: State, l: Label)
    requires DoneInv(s)
    ensures DoneInv(Step(s, l))
  {
    match l
    case Send(result, stale) =>
      if s.call.Starting? {
        SendDone(s, result, stale);
      }
    case Receive => ReceiveDone(s);
    case Finish(ws) => ReplyDone(s, l);
    case Emit(ws, pcm) => ReplyDone(s, l);
    case Chatter(ws) => ReplyDone(s, l);
    case Fail(ws) => ReplyDone(s, l);
    case _ =>
  }

  lemma ReceiveDone(s: State)
    requires DoneInv(s)
    ensures DoneInv(Step(s, Receive))
  {
    var t := Step(s, Receive);
    if NextMessage(s).Some? {
      var ws := s.call.ws;
      var before, after := s.sockets[ws].replies, t.sockets[ws].replies;
      assert forall i :: 0 <= i < |after| ==> after[i] == before[i + 1];
      DoneKept(s, t);
    }
  }

  lemma ReplyDone(s: State, l: Label)
    requires DoneInv(s) && (l.Finish? || l.Emit? || l.Chatter? || l.Fail?)
    ensures DoneInv(Step(s, l))
  {
    if Reachable(s, l.ws) {
      DoneKept(s, Step(s, l));
    }
  }

  lemma SendDone(s: State, result: SendResult, stale: bool)
    requires DoneInv(s) && s.call.Starting?
    ensures DoneInv(DoSend(s, result, stale))
  {
  }

  lemma SendHistory(s: State, result: SendResult, stale: bool)
    requires s.call.Starting?
    ensures var t := DoSend(s, result, stale);
            && t.doneSent == s.doneSent && t.doneRead == s.doneRead && t.errorRead == s.errorRead
            && t.nextRequest == s.nextRequest && (t.call.Idle? || t.call.request == s.call.request)
  {
  }

  /** What a step records about messages read. */
  lemma StepHistory(s: State, l: Label)
    ensures var t := Step(s, l);
            && s.doneSent <= t.doneSent && s.nextRequest <= t.nextRequest
            && (t.call.Idle? || t.call.request == (if s.call.Idle? then s.nextRequest else s.call.request))
            && (s.call.Idle? && !t.call.Idle? ==> t.nextRequest == s.nextRequest + 1)
            && (if l.Receive? && NextMessage(s).Some? && NextMessage(s).value.Done?
                then t.doneRead == s.doneRead + {s.call.request} && t.call.Idle? else t.doneRead == s.doneRead)
            && (if l.Receive? && NextMessage(s).Some? && NextMessage(s).value.Error?
                then t.errorRead == s.errorRead + {s.call.request} && t.call.Idle? else t.errorRead == s.errorRead)
  {
    if l.Send? && s.call.Starting? {
      SendHistory(s, l.result, l.stale);
    }
  }

  /** A `done` that the client reads answers the call that reads it. */
  lemma DoneIsOwn(s: State)
    requires SocketInv(s) && NextMessage(s).Some? && NextMessage(s).value.Done?
    ensures NextMessage(s).value.request == s.call.request
  {
  }

  /** A call ends with outcome `o`, and the history records accordingly. */
  lemma OutcomeRecorded(s: State, t: State, o: Outcome)
    requires NumberInv(s) && OutcomeInv(s) && !s.call.Idle? && t.call.Idle?
    requires t.endings == s.endings + [Ending(s.call.request, o)] && s.nextRequest <= t.nextRequest
    requires t.doneRead == (if o.Completed? then s.doneRead + {s.call.request} else s.doneRead)
    requires t.errorRead == (if o.Errored? then s.errorRead + {s.call.request} else s.errorRead)
    requires s.doneSent <= t.doneSent && (o.Completed? ==> s.call.request in t.doneSent)
    ensures OutcomeInv(t)
  {
  }

  lemma OutcomeKept(s: State, t: State)
    requires OutcomeInv(s) && t.endings == s.endings && t.doneRead == s.doneRead && t.errorRead == s.errorRead
    requires s.doneSent <= t.doneSent && s.nextRequest <= t.nextRequest
    requires t.call.Idle? || t.call.request == (if s.call.Idle? then s.nextRequest else s.call.request)
    ensures OutcomeInv(t)
  {
  }

  lemma ReceiveOutcome(s: State)
    requires Inv(s) && DoneInv(s) && OutcomeInv(s)
    ensures OutcomeInv(Step(s, Receive))
  {
    var t, m := Step(s, Receive), NextMessage(s);
    StepEnds(s, Receive);
    StepHistory(s, Receive);
    if m.Some? && m.value.Done? {
      DoneIsOwn(s);
      OutcomeRecorded(s, t, Completed);
    } else if m.Some? && m.value.Error? {
      OutcomeRecorded(s, t, Errored);
    } else {
      OutcomeKept(s, t);
    }
  }

  lemma OutcomeStep(s: State, l: Label)
    requires Inv(s) && DoneInv(s) && OutcomeInv(s)
    ensures OutcomeInv(Step(s, l))
  {
    if l.Receive? {
      ReceiveOutcome(s);
    } else {
      var t := Step(s, l);
      StepEnds(s, l);
      StepHistory(s, l);
      if t.endings == s.endings {
        OutcomeKept(s, t);
      } else {
        OutcomeRecorded(s, t, t.endings[|s.endings|].outcome);
      }
    }
  }

  /** Over every run, `Completed` means that the server's `done` for this call was read, and nothing else does. */
  lemma {:induction false} OutcomesAreTrue(labels: seq<Label>)
    ensures DoneInv(Run(INIT, labels)) && OutcomeInv(Run(INIT, labels))
  {
    if labels != [] {
      var before, l := Run(INIT, labels[..|labels| - 1]), labels[|labels| - 1];
      OutcomesAreTrue(labels[..|labels| - 1]);
      AudioReachesItsCall(labels[..|labels| - 1]);
      DoneStep(before, l);
      OutcomeStep(before, l);
    }
  }

  /** The reuse rule on its own: between calls, whatever happened before, a cached socket holds no audio. */
  lemma ReusedSocketIsClean(labels: seq<Label>)
    ensures var s := Run(INIT, labels);
            s.call.Idle? && s.cached.Some? ==>
              s.cached.value < |s.sockets| && Clean(s.sockets[s.cached.value])
              && Waiting(s.sockets[s.cached.value].replies) == []
  {
    AudioReachesItsCall(labels);
    var s := Run(INIT, labels);
    if s.call.Idle? && s.cached.Some? {
      QuietHasNoAudio(s.sockets[s.cached.value].replies);
    }
  }

  /**
   A completed call leaves its socket for the next one: if it is still open, the next request goes
   out on it and no connection is made.
   */
  lemma CompletedSocketIsReused(s: State)
    requires SocketInv(s) && NextMessage(s).Some? && NextMessage(s).value.Done? && s.sockets[s.call.ws].open
    ensures var done := Step(s, Receive);
            var next := Step(Step(done, Begin), Send(SentAtOnce, false));
            && done.cached == Some(s.call.ws)
            && next.call == Receiving(s.nextRequest, s.call.ws) && |next.sockets| == |s.sockets|
            && next.sockets[s.call.ws].requests == [s.nextRequest]
  {
    var done := Step(s, Receive);
    ReceiveKeeps(s);
    assert Clean(done.sockets[s.call.ws]);
    var begun := Step(done, Begin);
    assert EnsureSocket(begun, false) == begun;
    assert [] + [s.nextRequest] == [s.nextRequest];
  }
}
