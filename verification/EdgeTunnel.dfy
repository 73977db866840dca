/**
 The tunnel as a whole: one server, any number of sockets, a queue per socket and direction, local apps
 that answer in any order, timers that fire at any time, and sockets that close and lose what was in
 transit.  Sockets outside `honest` may send any frame whatever.
 */
module EdgeTunnel {
  import opened Wrappers
  import opened EdgeRegistry
  import opened EdgeClient
  import Base64

  /**
   Beside the registry: the frames in transit, the requests an edge is working on (with the socket
   each came in on), and a record of what was asked, dispatched and answered.
   */
  datatype World = World(
    server: State,
    honest: set<SocketId>,
    closed: set<SocketId>,
    down: map<SocketId, seq<RequestFrame>>,
    up: map<SocketId, seq<Frame>>,
    running: map<RequestId, SocketId>,
    asked: map<RequestId, Request>,
    dispatched: map<RequestId, Request>,
    answers: map<RequestId, Answer>)

  datatype Event =
    | Announce(instanceId: InstanceId, edge: Edge)
    | Proxy(instanceId: InstanceId, request: Request, id: RequestId)
    | Dispatch(socket: SocketId)
    | Complete(id: RequestId, answer: Answer, via: Option<SocketId>)
    | Forge(socket: SocketId, frame: Frame)
    | Deliver(socket: SocketId)
    | Timeout(id: RequestId)
    | Close(socket: SocketId)

  function Start(honest: set<SocketId>): World {
    World(EMPTY, honest, {}, map[], map[], map[], map[], map[], map[])
  }

  function Queue<T>(queues: map<SocketId, seq<T>>, socket: SocketId): seq<T> {
    if socket in queues then queues[socket] else []
  }

  predicate Enabled(w: World, e: Event) {
    match e
    case Announce(_, edge) => edge.socketId !in w.closed
    case Proxy(_, _, id) => id != "" && id !in w.server.issued
    case Dispatch(s) => s in w.honest && s !in w.closed && Queue(w.down, s) != []
    case Complete(id, _, via) =>
      && id in w.running
      // A reconnected client sends what it held back over its new socket, or never.
      && if w.running[id] !in w.closed then via == Some(w.running[id])
         else via.Some? ==> via.value in w.honest && via.value !in w.closed
    case Forge(s, _) => s !in w.honest && s !in w.closed
    case Deliver(s) => s !in w.closed && Queue(w.up, s) != []
    case Timeout(id) => id in w.server.timers
    case Close(s) => s !in w.closed
  }

  function Step(w: World, e: Event): World
    requires Enabled(w, e)
  {
    match e
    case Announce(i, edge) => w.(server := Announced(w.server, i, edge))
    case Proxy(i, request, id) =>
      if i !in w.server.edges then w
      else
        var s := w.server.edges[i].socketId;
        w.(server := Issued(w.server, id, s),
           asked := w.asked[id := request],
           down := w.down[s := Queue(w.down, s) + [FrameFor(id, request)]])
    case Dispatch(s) =>
      var frame := Queue(w.down, s)[0];
      var popped := w.(down := w.down[s := Queue(w.down, s)[1..]]);
      (match Dispatched(frame)
       case None => popped
       case Some(request) =>
         popped.(running := w.running[frame.id := s], dispatched := w.dispatched[frame.id := request]))
    case Complete(id, answer, via) =>
      var done := w.(running := w.running - {id}, answers := w.answers[id := answer]);
      (match via
       case None => done
       case Some(s) => done.(up := w.up[s := Queue(w.up, s) + Script(id, answer)]))
    case Forge(s, frame) => w.(up := w.up[s := Queue(w.up, s) + [frame]])
    case Deliver(s) =>
      w.(server := Received(w.server, Queue(w.up, s)[0], s), up := w.up[s := Queue(w.up, s)[1..]])
    case Timeout(id) => w.(server := Failed(w.server, id, EdgeTimeout))
    case Close(s) =>
      w.(server := Dropped(w.server, s), closed := w.closed + {s}, down := w.down - {s}, up := w.up - {s})
  }

  ghost predicate Run(w: World, events: seq<Event>, after: World)
    decreases |events|
  {
    if events == [] then w == after
    else Enabled(w, events[0]) && Run(Step(w, events[0]), events[1..], after)
  }

  // ---- Settling exactly once ----

  /** Every issued request is pending or settled by one call, never both, and the timers are those of the pending. */
  predicate Accounted(s: State) {
    && s.timers == s.pending.Keys
    && s.issued.Keys == s.pending.Keys + s.calls.Keys
    && s.pending.Keys !! s.calls.Keys
    && (forall id :: id in s.calls ==> |s.calls[id]| == 1)
    && (forall id :: id in s.pending ==> s.pending[id].socketId == s.issued[id])
  }

  lemma ReceivedAccounted(s: State, frame: Frame, socket: SocketId)
    requires Accounted(s)
    ensures Accounted(Received(s, frame, socket))
  {
  }

  lemma DroppedAccounted(s: State, socket: SocketId)
    requires Accounted(s)
    ensures Accounted(Dropped(s, socket))
  {
    var gone := PendingOn(s, socket);
    assert gone <= s.pending.Keys;
    var failed := FailedAll(s, gone, EdgeGone);
    assert failed.pending.Keys == s.pending.Keys - gone;
    assert failed.calls.Keys == s.calls.Keys + gone;
  }

  /** A frame changes nothing about requests sent on other sockets. */
  lemma FramesStayOnTheirSocket(s: State, frame: Frame, socket: SocketId, id: RequestId)
    requires Accounted(s) && id in s.issued && s.issued[id] != socket
    ensures var t := Received(s, frame, socket);
            && (id in t.pending <==> id in s.pending)
            && (id in s.pending ==> t.pending[id] == s.pending[id])
            && CallsOf(t, id) == CallsOf(s, id)
  {
  }

  /**
   Dropping a socket fails its requests exactly when an edge is still announced over it: a socket whose
   edge was announced again elsewhere leaves its requests to their timers.  Others are untouched.
   */
  lemma DroppedFailsItsRequests(s: State, socket: SocketId)
    requires Accounted(s)
    ensures var t := Dropped(s, socket);
            && (PendingOn(t, socket) == {} <==> SocketHasEdge(s, socket) || PendingOn(s, socket) == {})
            && (SocketHasEdge(s, socket) ==>
                  forall id :: id in PendingOn(s, socket) ==> CallsOf(t, id) == [Rejected(EdgeGone)])
            && (forall id :: id in s.issued && s.issued[id] != socket ==>
                  && (id in t.pending <==> id in s.pending)
                  && (id in s.pending ==> t.pending[id] == s.pending[id])
                  && CallsOf(t, id) == CallsOf(s, id))
  {
    DroppedAccounted(s, socket);
    if SocketHasEdge(s, socket) {
      assert forall id :: id in PendingOn(s, socket) ==> id !in Dropped(s, socket).pending;
      assert PendingOn(Dropped(s, socket), socket) == {};
      forall id | id in PendingOn(s, socket) ensures CallsOf(Dropped(s, socket), id) == [Rejected(EdgeGone)] {
        assert id !in s.calls;
      }
    }
  }

  // ---- What the frames of one request add up to ----

  function FramesOf(id: RequestId, queue: seq<Frame>): seq<Frame> {
    if queue == [] then []
    else (if queue[0].id == id then [queue[0]] else []) + FramesOf(id, queue[1..])
  }

  /** The call a pending request is settled with once these frames of it have arrived, if any. */
  function Absorb(p: Pending, frames: seq<Frame>): Option<Outcome>
    decreases |frames|
  {
    if frames == [] then None
    else
      match frames[0]
      case Res(_, head) => Absorb(p.(res := Some(head)), frames[1..])
      case Chunk(_, _, data) =>
        Absorb(if data == "" then p else p.(chunks := p.chunks + [Base64.Decode(data)]), frames[1..])
      case End(_) => Some(Assembled(p))
      case Err(_, code) => Some(Rejected(ErrorCode(code)))
  }

  /** What the caller of `proxyRequest` should see of an answer. */
  function Expected(answer: Answer): Outcome {
    match answer
    case Answered(head, payload) => Resolved(head, payload)
    case Threw => Rejected(Reported("EDGE_DISPATCH_FAILED"))
  }

  function OwnOne(id: RequestId, frame: Frame): seq<Frame> { if frame.id == id then [frame] else [] }

  lemma FramesOfFirst(id: RequestId, queue: seq<Frame>)
    requires queue != []
    ensures FramesOf(id, queue) == OwnOne(id, queue[0]) + FramesOf(id, queue[1..])
  {
  }

  lemma FramesOfNext(id: RequestId, queue: seq<Frame>)
    requires queue != []
    ensures FramesOf(id, queue) == if queue[0].id == id then [queue[0]] + FramesOf(id, queue[1..]) else FramesOf(id, queue[1..])
  {
  }

  lemma FramesOfConcatStep(id: RequestId, a: seq<Frame>, b: seq<Frame>)
    requires a != []
    ensures FramesOf(id, a + b) == OwnOne(id, a[0]) + FramesOf(id, a[1..] + b)
  {
    FirstOfConcat(a, b);
    FramesOfFirst(id, a + b);
  }

  lemma FirstOfConcat(a: seq<Frame>, b: seq<Frame>)
    requires a != []
    ensures (a + b)[0] == a[0] && (a + b)[1..] == a[1..] + b
  {
  }

  lemma InThree(a: seq<Frame>, b: seq<Frame>, c: seq<Frame>)
    ensures a + (b + c) == a + b + c
  {
  }

  lemma {:induction false} FramesOfConcat(id: RequestId, a: seq<Frame>, b: seq<Frame>)
    ensures FramesOf(id, a + b) == FramesOf(id, a) + FramesOf(id, b)
    decreases |a|
  {
    if a == [] {
      assert a + b == b;
    } else {
      FramesOfConcatStep(id, a, b);
      FramesOfFirst(id, a);
      FramesOfConcat(id, a[1..], b);
      InThree(OwnOne(id, a[0]), FramesOf(id, a[1..]), FramesOf(id, b));
    }
  }

  lemma {:induction false} FramesOfOthers(id: RequestId, queue: seq<Frame>)
    requires forall f :: f in queue ==> f.id != id
    ensures FramesOf(id, queue) == []
  {
    if queue != [] {
      FramesOfOthers(id, queue[1..]);
    }
  }

  lemma {:induction false} FramesOfOwn(id: RequestId, queue: seq<Frame>)
    requires forall f :: f in queue ==> f.id == id
    ensures FramesOf(id, queue) == queue
  {
    if queue != [] {
      FramesOfOwn(id, queue[1..]);
    }
  }

  lemma {:induction false} ChunkFramesIds(id: RequestId, payload: Bytes, offset: nat, number: nat)
    ensures forall f :: f in ChunkFrames(id, payload, offset, number) ==> f.id == id
    decreases |payload| - offset
  {
    if offset < |payload| {
      ChunkFramesIds(id, payload, offset + CHUNK_SIZE, number + 1);
    }
  }

  lemma ScriptIds(id: RequestId, answer: Answer)
    ensures forall f :: f in Script(id, answer) ==> f.id == id
  {
    if answer.Answered? {
      ChunkFramesIds(id, answer.payload, 0, 0);
    }
  }

  lemma AbsorbChunk(p: Pending, id: RequestId, number: nat, piece: Bytes, rest: seq<Frame>)
    requires piece != []
    ensures Absorb(p, [Chunk(id, number, Base64.Encode(piece))] + rest) == Absorb(p.(chunks := p.chunks + [piece]), rest)
    ensures Concat(p.chunks + [piece]) == Concat(p.chunks) + piece
  {
    Base64.NonEmptyText(piece);
    Base64.DecodeEncode(piece);
    assert ([Chunk(id, number, Base64.Encode(piece))] + rest)[1..] == rest;
    assert (p.chunks + [piece])[..|p.chunks|] == p.chunks;
  }

  function Remainder(payload: Bytes, offset: nat): Bytes {
    if offset < |payload| then payload[offset..] else []
  }

  lemma RemainderStep(payload: Bytes, offset: nat, before: Bytes)
    requires offset < |payload|
    ensures before + payload[offset..ChunkEnd(payload, offset)] + Remainder(payload, offset + CHUNK_SIZE)
         == before + Remainder(payload, offset)
  {
    assert payload[offset..ChunkEnd(payload, offset)] + Remainder(payload, offset + CHUNK_SIZE) == payload[offset..];
  }

  lemma ChunkFramesStep(id: RequestId, payload: Bytes, offset: nat, number: nat)
    requires offset < |payload|
    ensures ChunkFrames(id, payload, offset, number) + [End(id)]
         == [Chunk(id, number, Base64.Encode(payload[offset..ChunkEnd(payload, offset)]))]
            + (ChunkFrames(id, payload, offset + CHUNK_SIZE, number + 1) + [End(id)])
  {
  }

  /** One chunk absorbed leaves the rest of the frames to a request with one piece more. */
  lemma AbsorbFirstChunk(p: Pending, id: RequestId, payload: Bytes, offset: nat, number: nat, piece: Bytes)
    requires offset < |payload| && piece == payload[offset..ChunkEnd(payload, offset)]
    ensures Absorb(p, ChunkFrames(id, payload, offset, number) + [End(id)])
         == Absorb(p.(chunks := p.chunks + [piece]), ChunkFrames(id, payload, offset + CHUNK_SIZE, number + 1) + [End(id)])
    ensures Concat(p.chunks + [piece]) + Remainder(payload, offset + CHUNK_SIZE) == Concat(p.chunks) + Remainder(payload, offset)
  {
    ChunkFramesStep(id, payload, offset, number);
    AbsorbChunk(p, id, number, piece, ChunkFrames(id, payload, offset + CHUNK_SIZE, number + 1) + [End(id)]);
    RemainderStep(payload, offset, Concat(p.chunks));
  }

  lemma AbsorbNoChunk(p: Pending, head: Head, id: RequestId, payload: Bytes, offset: nat, number: nat)
    requires p.res == Some(head) && offset >= |payload|
    ensures Absorb(p, ChunkFrames(id, payload, offset, number) + [End(id)])
         == Some(Resolved(head, Concat(p.chunks) + Remainder(payload, offset)))
  {
    assert ChunkFrames(id, payload, offset, number) + [End(id)] == [End(id)];
    assert Concat(p.chunks) + [] == Concat(p.chunks);
  }

  /** The chunking loop and the piecewise decoding cancel out, for payloads of any length. */
  lemma {:induction false} AbsorbChunks(p: Pending, head: Head, id: RequestId, payload: Bytes, offset: nat, number: nat)
    requires p.res == Some(head)
    ensures Absorb(p, ChunkFrames(id, payload, offset, number) + [End(id)])
         == Some(Resolved(head, Concat(p.chunks) + Remainder(payload, offset)))
    decreases |payload| - offset
  {
    if offset < |payload| {
      var piece := payload[offset..ChunkEnd(payload, offset)];
      AbsorbFirstChunk(p, id, payload, offset, number, piece);
      AbsorbChunks(p.(chunks := p.chunks + [piece]), head, id, payload, offset + CHUNK_SIZE, number + 1);
    } else {
      AbsorbNoChunk(p, head, id, payload, offset, number);
    }
  }

  lemma AbsorbScript(socket: SocketId, id: RequestId, answer: Answer)
    ensures Absorb(Pending(None, [], socket), Script(id, answer)) == Some(Expected(answer))
  {
    match answer
    case Threw =>
    case Answered(head, payload) =>
      var p := Pending(Some(head), [], socket);
      AbsorbChunks(p, head, id, payload, 0, 0);
      assert Script(id, answer)[1..] == ChunkFrames(id, payload, 0, 0) + [End(id)];
      assert Concat([]) + Remainder(payload, 0) == payload;
  }

  // ---- What every step keeps ----

  /** A request frame on its way: asked for on this socket, and nothing done about it yet. */
  predicate InTransit(w: World, socket: SocketId, f: RequestFrame) {
    && f.id in w.server.issued && w.server.issued[f.id] == socket
    && f.id in w.asked && f == FrameFor(f.id, w.asked[f.id])
    && f.id !in w.running && f.id !in w.dispatched && f.id !in w.answers
  }

  ghost predicate DownOk(w: World) {
    && (forall s, k :: s in w.down && 0 <= k < |w.down[s]| ==> InTransit(w, s, w.down[s][k]))
    && (forall s, j, k :: s in w.down && 0 <= j < k < |w.down[s]| ==> w.down[s][j].id != w.down[s][k].id)
  }

  predicate EdgesOk(w: World) {
    && "" !in w.asked
    && w.asked.Keys <= w.server.issued.Keys
    && w.dispatched.Keys <= w.asked.Keys
    && (forall id :: id in w.dispatched ==> w.dispatched[id] == w.asked[id] && w.server.issued[id] in w.honest)
    && w.answers.Keys <= w.dispatched.Keys
    && (forall id :: id in w.running ==>
          id in w.dispatched && id !in w.answers && w.running[id] == w.server.issued[id])
  }

  predicate UpOk(w: World) {
    forall s, k :: s in w.up && s in w.honest && 0 <= k < |w.up[s]| ==> w.up[s][k].id in w.answers
  }

  /** What has arrived and what is still in transit for a pending request make up its whole answer. */
  predicate Flows(w: World, id: RequestId, p: Pending) {
    if id in w.answers then Absorb(p, FramesOf(id, Queue(w.up, p.socketId))) == Some(Expected(w.answers[id]))
    else p == Pending(None, [], p.socketId)
  }

  predicate FlowOk(w: World) {
    forall id :: id in w.server.pending && w.server.pending[id].socketId in w.honest - w.closed ==>
      Flows(w, id, w.server.pending[id])
  }

  predicate IsAnswerOrLoss(w: World, id: RequestId, outcome: Outcome) {
    || outcome == Rejected(EdgeGone)
    || outcome == Rejected(EdgeTimeout)
    || (id in w.answers && outcome == Expected(w.answers[id]))
  }

  predicate CallsOk(w: World) {
    forall id :: id in w.server.calls && id in w.server.issued && w.server.issued[id] in w.honest ==>
      forall k :: 0 <= k < |w.server.calls[id]| ==> IsAnswerOrLoss(w, id, w.server.calls[id][k])
  }

  ghost predicate Inv(w: World) {
    Accounted(w.server) && DownOk(w) && EdgesOk(w) && UpOk(w) && FlowOk(w) && CallsOk(w)
    && AnnouncedOk(w)
  }

  predicate AnnouncedOk(w: World) {
    forall i :: i in w.server.edges ==> w.server.edges[i].socketId !in w.closed
  }

  lemma AnnouncedKept(w: World, e: Event)
    requires AnnouncedOk(w) && Enabled(w, e)
    ensures AnnouncedOk(Step(w, e))
  {
    if e.Deliver? {
      assert Step(w, e).server.edges == w.server.edges;
    }
  }

  lemma IssuedAccounted(s: State, id: RequestId, socket: SocketId)
    requires Accounted(s) && id !in s.issued
    ensures Accounted(Issued(s, id, socket))
  {
  }

  lemma FailedAccounted(s: State, id: RequestId, reason: Code)
    requires Accounted(s)
    ensures Accounted(Failed(s, id, reason))
  {
  }

  lemma AccountedKept(w: World, e: Event)
    requires Accounted(w.server) && Enabled(w, e)
    ensures Accounted(Step(w, e).server)
  {
    match e
    case Proxy(i, _, id) =>
      if i in w.server.edges {
        IssuedAccounted(w.server, id, w.server.edges[i].socketId);
      }
    case Deliver(s) => ReceivedAccounted(w.server, Queue(w.up, s)[0], s);
    case Timeout(id) => FailedAccounted(w.server, id, EdgeTimeout);
    case Close(s) => DroppedAccounted(w.server, s);
    case _ =>
  }

  lemma DispatchKeepsTransit(w: World, socket: SocketId, s: SocketId, f: RequestFrame)
    requires DownOk(w) && Enabled(w, Dispatch(socket))
    requires InTransit(w, s, f) && f.id != w.down[socket][0].id
    ensures InTransit(Step(w, Dispatch(socket)), s, f)
  {
  }

  lemma DispatchKeepsDown(w: World, socket: SocketId)
    requires DownOk(w) && Enabled(w, Dispatch(socket))
    ensures DownOk(Step(w, Dispatch(socket)))
  {
    var after := Step(w, Dispatch(socket));
    assert after.down == w.down[socket := w.down[socket][1..]];
    assert InTransit(w, socket, w.down[socket][0]);
    forall s, k | s in after.down && 0 <= k < |after.down[s]| ensures InTransit(after, s, after.down[s][k]) {
      var there := if s == socket then k + 1 else k;
      assert after.down[s][k] == w.down[s][there];
      assert InTransit(w, s, w.down[s][there]);
      DispatchKeepsTransit(w, socket, s, w.down[s][there]);
    }
  }

  lemma DownKept(w: World, e: Event)
    requires DownOk(w) && EdgesOk(w) && Enabled(w, e)
    ensures DownOk(Step(w, e))
  {
    match e
    case Dispatch(s) => DispatchKeepsDown(w, s);
    case Proxy(_, _, _) => ProxyKeepsDown(w, e);
    case Complete(_, _, _) => CompleteKeepsDown(w, e);
    case _ =>
      assert Step(w, e).server.issued == w.server.issued;
      QuietStepKeepsDown(w, Step(w, e));
  }

  lemma CompleteKeepsDown(w: World, e: Event)
    requires DownOk(w) && Enabled(w, e) && e.Complete?
    ensures DownOk(Step(w, e))
  {
    var after := Step(w, e);
    forall s, k | s in after.down && 0 <= k < |after.down[s]| ensures InTransit(after, s, after.down[s][k]) {
      assert InTransit(w, s, w.down[s][k]);
    }
  }

  lemma QuietStepKeepsDown(w: World, after: World)
    requires DownOk(w) && after.server.issued == w.server.issued && after.asked == w.asked
    requires after.running == w.running && after.dispatched == w.dispatched && after.answers == w.answers
    requires forall s :: s in after.down ==> s in w.down && after.down[s] == w.down[s]
    ensures DownOk(after)
  {
    forall s, k | s in after.down && 0 <= k < |after.down[s]| ensures InTransit(after, s, after.down[s][k]) {
      assert InTransit(w, s, w.down[s][k]);
    }
  }

  lemma ProxyKeepsDown(w: World, e: Event)
    requires DownOk(w) && EdgesOk(w) && Enabled(w, e) && e.Proxy?
    ensures DownOk(Step(w, e))
  {
    if e.instanceId in w.server.edges {
      var at, frame, after := w.server.edges[e.instanceId].socketId, FrameFor(e.id, e.request), Step(w, e);
      NewIdIsNowhere(w, e.id);
      assert InTransit(after, at, frame);
      forall s, k | s in w.down && 0 <= k < |w.down[s]| ensures w.down[s][k].id != e.id && InTransit(after, s, w.down[s][k]) {
        assert InTransit(w, s, w.down[s][k]);
      }
    }
  }

  lemma NewIdIsNowhere(w: World, id: RequestId)
    requires EdgesOk(w) && id !in w.server.issued
    ensures id !in w.asked && id !in w.dispatched && id !in w.answers && id !in w.running
  {
  }

  lemma DispatchKeepsEdges(w: World, socket: SocketId)
    requires DownOk(w) && EdgesOk(w) && Enabled(w, Dispatch(socket))
    ensures EdgesOk(Step(w, Dispatch(socket)))
  {
    var frame := w.down[socket][0];
    assert InTransit(w, socket, frame);
    if Dispatched(frame).Some? {
      DispatchedIsRequested(frame.id, w.asked[frame.id]);
      DispatchedEdges(w, Step(w, Dispatch(socket)), frame.id, socket);
    }
  }

  lemma DispatchedEdges(w: World, after: World, id: RequestId, socket: SocketId)
    requires EdgesOk(w) && id in w.asked && id !in w.answers && w.server.issued[id] == socket && socket in w.honest
    requires after.server == w.server && after.asked == w.asked && after.answers == w.answers && after.honest == w.honest
    requires after.running == w.running[id := socket] && after.dispatched == w.dispatched[id := w.asked[id]]
    ensures EdgesOk(after)
  {
  }

  lemma CompleteKeepsEdges(w: World, e: Event)
    requires EdgesOk(w) && Enabled(w, e) && e.Complete?
    ensures EdgesOk(Step(w, e))
  {
  }

  lemma ProxyKeepsEdges(w: World, e: Event)
    requires EdgesOk(w) && Enabled(w, e) && e.Proxy?
    ensures EdgesOk(Step(w, e))
  {
  }

  lemma EdgesKept(w: World, e: Event)
    requires DownOk(w) && EdgesOk(w) && Enabled(w, e)
    ensures EdgesOk(Step(w, e))
  {
    match e
    case Dispatch(s) => DispatchKeepsEdges(w, s);
    case Complete(_, _, _) => CompleteKeepsEdges(w, e);
    case Proxy(_, _, _) => ProxyKeepsEdges(w, e);
    case _ =>
      assert Step(w, e).server.issued == w.server.issued;
      QuietStepKeepsEdges(w, Step(w, e));
  }

  lemma QuietStepKeepsEdges(w: World, after: World)
    requires EdgesOk(w) && after.server.issued == w.server.issued && after.honest == w.honest && after.asked == w.asked
    requires after.running == w.running && after.dispatched == w.dispatched && after.answers == w.answers
    ensures EdgesOk(after)
  {
  }

  lemma UpKept(w: World, e: Event)
    requires UpOk(w) && Enabled(w, e)
    ensures UpOk(Step(w, e))
  {
    if e.Complete? {
      ScriptIds(e.id, e.answer);
      var after := Step(w, e);
      forall s, k | s in after.up && s in after.honest && 0 <= k < |after.up[s]| ensures after.up[s][k].id in after.answers {
        if k < |Queue(w.up, s)| {
          assert after.up[s][k] == w.up[s][k];
        } else {
          assert after.up[s][k] in Script(e.id, e.answer);
        }
      }
    }
  }

  lemma OwnFramesSent(id: RequestId, before: seq<Frame>, sent: seq<Frame>)
    requires (forall f :: f in before ==> f.id != id) && (forall f :: f in sent ==> f.id == id)
    ensures FramesOf(id, before + sent) == sent
  {
    FramesOfConcat(id, before, sent);
    FramesOfOthers(id, before);
    FramesOfOwn(id, sent);
  }

  lemma OtherFramesSent(id: RequestId, before: seq<Frame>, sent: seq<Frame>)
    requires forall f :: f in sent ==> f.id != id
    ensures FramesOf(id, before + sent) == FramesOf(id, before)
  {
    FramesOfConcat(id, before, sent);
    FramesOfOthers(id, sent);
  }

  /** The queue of a socket after an answer was sent, on this socket or another, or not at all. */
  lemma CompletedQueue(w: World, id: RequestId, answer: Answer, via: Option<SocketId>, s: SocketId)
    requires Enabled(w, Complete(id, answer, via))
    ensures Queue(Step(w, Complete(id, answer, via)).up, s)
         == if via == Some(s) then Queue(w.up, s) + Script(id, answer) else Queue(w.up, s)
  {
  }

  lemma OwnAnswerFlows(w: World, id: RequestId, answer: Answer, via: Option<SocketId>)
    requires EdgesOk(w) && UpOk(w) && FlowOk(w) && Enabled(w, Complete(id, answer, via))
    requires id in w.server.pending && w.server.pending[id].socketId in w.honest - w.closed
    requires w.running[id] == w.server.pending[id].socketId
    ensures Flows(Step(w, Complete(id, answer, via)), id, w.server.pending[id])
  {
    var s := w.server.pending[id].socketId;
    assert Flows(w, id, w.server.pending[id]);
    CompletedQueue(w, id, answer, via, s);
    ScriptIds(id, answer);
    OwnFramesSent(id, Queue(w.up, s), Script(id, answer));
    AbsorbScript(s, id, answer);
  }

  lemma OtherAnswerFlows(w: World, done: RequestId, answer: Answer, via: Option<SocketId>, id: RequestId)
    requires FlowOk(w) && Enabled(w, Complete(done, answer, via)) && id != done
    requires id in w.server.pending && w.server.pending[id].socketId in w.honest - w.closed
    ensures Flows(Step(w, Complete(done, answer, via)), id, w.server.pending[id])
  {
    var s := w.server.pending[id].socketId;
    assert Flows(w, id, w.server.pending[id]);
    CompletedQueue(w, done, answer, via, s);
    ScriptIds(done, answer);
    OtherFramesSent(id, Queue(w.up, s), Script(done, answer));
  }

  /** Frames being sent for one request leave the flow of every other as it was. */
  lemma CompleteKeepsFlow(w: World, e: Event, id: RequestId)
    requires Accounted(w.server) && EdgesOk(w) && UpOk(w) && FlowOk(w) && Enabled(w, e) && e.Complete?
    requires id in w.server.pending && w.server.pending[id].socketId in w.honest - w.closed
    ensures Flows(Step(w, e), id, w.server.pending[id])
  {
    if id == e.id {
      OwnAnswerFlows(w, id, e.answer, e.via);
    } else {
      OtherAnswerFlows(w, e.id, e.answer, e.via, id);
    }
  }

  /** A pending request after a frame that does not settle it. */
  function Advanced(p: Pending, frame: Frame): Pending {
    match frame
    case Res(_, head) => p.(res := Some(head))
    case Chunk(_, _, data) => if data == "" then p else p.(chunks := p.chunks + [Base64.Decode(data)])
    case _ => p
  }

  lemma AbsorbNext(p: Pending, frame: Frame, rest: seq<Frame>)
    ensures Absorb(p, [frame] + rest)
         == if CallOf(p, frame).Some? then CallOf(p, frame) else Absorb(Advanced(p, frame), rest)
  {
    assert ([frame] + rest)[1..] == rest;
  }

  lemma ReceivedPending(s: State, frame: Frame, socket: SocketId, id: RequestId)
    requires id in s.pending
    ensures var t := Received(s, frame, socket);
            if frame.id == id && s.pending[id].socketId == socket then
              if CallOf(s.pending[id], frame).Some? then id !in t.pending
              else id in t.pending && t.pending[id] == Advanced(s.pending[id], frame)
            else id in t.pending && t.pending[id] == s.pending[id]
  {
  }

  lemma DeliverKeepsFlow(w: World, socket: SocketId, id: RequestId)
    requires FlowOk(w) && UpOk(w) && Enabled(w, Deliver(socket)) && id in w.server.pending
    requires id in Step(w, Deliver(socket)).server.pending && w.server.pending[id].socketId in w.honest - w.closed
    ensures Flows(Step(w, Deliver(socket)), id, Step(w, Deliver(socket)).server.pending[id])
  {
    var p, queue := w.server.pending[id], w.up[socket];
    assert Flows(w, id, p);
    ReceivedPending(w.server, queue[0], socket, id);
    if p.socketId == socket {
      FramesOfNext(id, queue);
      if queue[0].id == id {
        AbsorbNext(p, queue[0], FramesOf(id, queue[1..]));
      }
    }
  }

  lemma SameFlow(w: World, after: World, id: RequestId)
    requires id in w.server.pending && Flows(w, id, w.server.pending[id]) && after.answers == w.answers
    requires Queue(after.up, w.server.pending[id].socketId) == Queue(w.up, w.server.pending[id].socketId)
    ensures Flows(after, id, w.server.pending[id])
  {
  }

  lemma IssuedKeepsFlow(w: World, after: World, asked: RequestId, s: SocketId)
    requires FlowOk(w) && after.server.pending == w.server.pending[asked := Pending(None, [], s)] && asked !in w.answers
    requires after.up == w.up && after.answers == w.answers && after.honest == w.honest && after.closed == w.closed
    ensures FlowOk(after)
  {
    forall id | id in after.server.pending && after.server.pending[id].socketId in after.honest - after.closed
      ensures Flows(after, id, after.server.pending[id])
    {
      if id != asked {
        SameFlow(w, after, id);
      }
    }
  }

  lemma ProxyKeepsFlow(w: World, i: InstanceId, request: Request, asked: RequestId)
    requires FlowOk(w) && EdgesOk(w) && Enabled(w, Proxy(i, request, asked))
    ensures FlowOk(Step(w, Proxy(i, request, asked)))
  {
    assert asked !in w.answers;
    if i in w.server.edges {
      IssuedKeepsFlow(w, Step(w, Proxy(i, request, asked)), asked, w.server.edges[i].socketId);
    }
  }

  lemma TimeoutKeepsFlow(w: World, gone: RequestId)
    requires FlowOk(w) && Enabled(w, Timeout(gone))
    ensures FlowOk(Step(w, Timeout(gone)))
  {
    var after := Step(w, Timeout(gone));
    forall id | id in after.server.pending && after.server.pending[id].socketId in after.honest - after.closed
      ensures Flows(after, id, after.server.pending[id])
    {
      SameFlow(w, after, id);
    }
  }

  lemma CloseKeepsFlow(w: World, s: SocketId)
    requires FlowOk(w) && Enabled(w, Close(s))
    ensures FlowOk(Step(w, Close(s)))
  {
    var after := Step(w, Close(s));
    forall id | id in after.server.pending && after.server.pending[id].socketId in after.honest - after.closed
      ensures Flows(after, id, after.server.pending[id])
    {
      assert id in w.server.pending && after.server.pending[id] == w.server.pending[id];
      SameFlow(w, after, id);
    }
  }

  lemma QuietStepKeepsFlow(w: World, e: Event)
    requires FlowOk(w) && Enabled(w, e)
    requires e.Announce? || e.Dispatch? || e.Forge?
    ensures FlowOk(Step(w, e))
  {
    var after := Step(w, e);
    forall id | id in after.server.pending && after.server.pending[id].socketId in after.honest - after.closed
      ensures Flows(after, id, after.server.pending[id])
    {
      assert Flows(w, id, w.server.pending[id]);
    }
  }

  lemma NothingNewPending(s: State, frame: Frame, socket: SocketId, id: RequestId)
    requires id in Received(s, frame, socket).pending
    ensures id in s.pending && s.pending[id].socketId == Received(s, frame, socket).pending[id].socketId
  {
  }

  lemma FlowKept(w: World, e: Event)
    requires Accounted(w.server) && EdgesOk(w) && UpOk(w) && FlowOk(w) && Enabled(w, e)
    ensures FlowOk(Step(w, e))
  {
    match e
    case Complete(_, _, _) =>
      forall id | id in w.server.pending && w.server.pending[id].socketId in w.honest - w.closed
        ensures Flows(Step(w, e), id, w.server.pending[id])
      {
        CompleteKeepsFlow(w, e, id);
      }
    case Deliver(socket) =>
      var after := Step(w, e);
      forall id | id in after.server.pending && after.server.pending[id].socketId in after.honest - after.closed
        ensures Flows(after, id, after.server.pending[id])
      {
        NothingNewPending(w.server, w.up[socket][0], socket, id);
        DeliverKeepsFlow(w, socket, id);
      }
    case Proxy(i, request, id) => ProxyKeepsFlow(w, i, request, id);
    case Timeout(id) => TimeoutKeepsFlow(w, id);
    case Close(s) => CloseKeepsFlow(w, s);
    case _ => QuietStepKeepsFlow(w, e);
  }

  /** The settling call a frame makes on the request it belongs to, if any. */
  function CallOf(p: Pending, frame: Frame): Option<Outcome> {
    match frame
    case End(_) => Some(Assembled(p))
    case Err(_, code) => Some(Rejected(ErrorCode(code)))
    case _ => None
  }

  lemma ReceivedCalls(s: State, frame: Frame, socket: SocketId)
    ensures var t := Received(s, frame, socket);
            && t.issued == s.issued
            && t.calls == (if Owned(s, frame.id, socket) && CallOf(s.pending[frame.id], frame).Some?
                           then s.calls[frame.id := CallsOf(s, frame.id) + [CallOf(s.pending[frame.id], frame).value]]
                           else s.calls)
  {
  }

  /** A frame that settles a request of an honest edge settles it with its answer. */
  lemma DeliveredIsAnswer(w: World, s: SocketId)
    requires FlowOk(w) && UpOk(w) && Enabled(w, Deliver(s)) && s in w.honest
    requires var frame := w.up[s][0]; Owned(w.server, frame.id, s) && CallOf(w.server.pending[frame.id], frame).Some?
    ensures var frame := w.up[s][0];
            && frame.id in w.answers
            && CallOf(w.server.pending[frame.id], frame) == Some(Expected(w.answers[frame.id]))
  {
    var frame := w.up[s][0];
    assert Flows(w, frame.id, w.server.pending[frame.id]);
    assert FramesOf(frame.id, w.up[s])[0] == frame;
  }

  lemma OneMoreCall(w: World, id: RequestId, outcome: Outcome, after: World)
    requires CallsOk(w) && after.answers == w.answers && after.honest == w.honest && after.server.issued == w.server.issued
    requires after.server.calls == w.server.calls[id := CallsOf(w.server, id) + [outcome]]
    requires id in w.server.issued && w.server.issued[id] in w.honest ==> IsAnswerOrLoss(w, id, outcome)
    ensures CallsOk(after)
  {
  }

  lemma DeliverKeepsCalls(w: World, s: SocketId)
    requires Accounted(w.server) && FlowOk(w) && UpOk(w) && CallsOk(w) && Enabled(w, Deliver(s))
    ensures CallsOk(Step(w, Deliver(s)))
  {
    var frame := w.up[s][0];
    ReceivedCalls(w.server, frame, s);
    if Owned(w.server, frame.id, s) && CallOf(w.server.pending[frame.id], frame).Some? {
      if s in w.honest {
        DeliveredIsAnswer(w, s);
      }
      OneMoreCall(w, frame.id, CallOf(w.server.pending[frame.id], frame).value, Step(w, Deliver(s)));
    }
  }

  lemma CloseKeepsCalls(w: World, s: SocketId)
    requires CallsOk(w) && Enabled(w, Close(s))
    ensures CallsOk(Step(w, Close(s)))
  {
    var after := Step(w, Close(s));
    forall id, k | id in after.server.calls && id in after.server.issued && 0 <= k < |after.server.calls[id]|
                   && after.server.issued[id] in after.honest
      ensures IsAnswerOrLoss(after, id, after.server.calls[id][k])
    {
      if k < |CallsOf(w.server, id)| {
        assert IsAnswerOrLoss(w, id, w.server.calls[id][k]);
      }
    }
  }

  lemma TimeoutKeepsCalls(w: World, id: RequestId)
    requires CallsOk(w) && Enabled(w, Timeout(id))
    ensures CallsOk(Step(w, Timeout(id)))
  {
  }

  lemma CompleteKeepsCalls(w: World, e: Event)
    requires CallsOk(w) && EdgesOk(w) && Enabled(w, e) && e.Complete?
    ensures CallsOk(Step(w, e))
  {
  }

  lemma CallsKept(w: World, e: Event)
    requires Accounted(w.server) && EdgesOk(w) && FlowOk(w) && UpOk(w) && CallsOk(w) && Enabled(w, e)
    ensures CallsOk(Step(w, e))
  {
    match e
    case Deliver(s) => DeliverKeepsCalls(w, s);
    case Close(s) => CloseKeepsCalls(w, s);
    case Timeout(id) => TimeoutKeepsCalls(w, id);
    case Complete(_, _, _) => CompleteKeepsCalls(w, e);
    case Proxy(i, request, id) => ProxyKeepsCalls(w, i, request, id);
    case _ => QuietStepKeepsCalls(w, e);
  }

  lemma ProxyKeepsCalls(w: World, i: InstanceId, request: Request, id: RequestId)
    requires Accounted(w.server) && CallsOk(w) && Enabled(w, Proxy(i, request, id))
    ensures CallsOk(Step(w, Proxy(i, request, id)))
  {
  }

  lemma QuietStepKeepsCalls(w: World, e: Event)
    requires CallsOk(w) && Enabled(w, e) && (e.Announce? || e.Dispatch? || e.Forge?)
    ensures CallsOk(Step(w, e))
  {
    SameCalls(w, Step(w, e));
  }

  lemma SameCalls(w: World, after: World)
    requires CallsOk(w) && after.answers == w.answers && after.honest == w.honest
    requires after.server.issued == w.server.issued && after.server.calls == w.server.calls
    ensures CallsOk(after)
  {
  }

  lemma StepKeepsInv(w: World, e: Event)
    requires Inv(w) && Enabled(w, e)
    ensures Inv(Step(w, e))
  {
    AccountedKept(w, e);
    DownKept(w, e);
    EdgesKept(w, e);
    UpKept(w, e);
    FlowKept(w, e);
    CallsKept(w, e);
    AnnouncedKept(w, e);
  }

  lemma {:induction false} RunKeepsInv(w: World, events: seq<Event>, after: World)
    requires Inv(w) && Run(w, events, after)
    ensures Inv(after)
    decreases |events|
  {
    if events != [] {
      StepKeepsInv(w, events[0]);
      RunKeepsInv(Step(w, events[0]), events[1..], after);
    }
  }

  // ---- The promises of the tunnel ----

  /**
   However requests, answers, losses, timers and forged frames interleave: every request is pending or
   settled once, and one sent to an honest edge was dispatched exactly as asked and settles with
   exactly the status, headers and bytes its local app answered, or with a loss or a timeout.
   */
  lemma TunnelDelivers(honest: set<SocketId>, events: seq<Event>, w: World, id: RequestId)
    requires Run(Start(honest), events, w)
    requires id in w.server.issued
    ensures Accounted(w.server)
    ensures id in w.server.calls && w.server.issued[id] in honest ==>
              IsAnswerOrLoss(w, id, w.server.calls[id][0])
    ensures id in w.server.calls && w.server.issued[id] in honest && w.server.calls[id][0].Resolved? ==>
              var got := w.server.calls[id][0];
              id in w.answers && w.answers[id].Answered? && got.head == w.answers[id].head && got.body == w.answers[id].payload
    ensures id in w.dispatched ==> id in w.asked && w.dispatched[id] == w.asked[id]
    ensures id in w.answers ==> id in w.dispatched
  {
    RunKeepsInv(Start(honest), events, w);
    RunKeepsHonest(Start(honest), events, w);
  }

  lemma {:induction false} RunKeepsHonest(w: World, events: seq<Event>, after: World)
    requires Run(w, events, after)
    ensures after.honest == w.honest
    decreases |events|
  {
    if events != [] {
      RunKeepsHonest(Step(w, events[0]), events[1..], after);
    }
  }

  /** The frame that settles an answered request settles it with its answer, once. */
  lemma LastFrameSettles(w: World, s: SocketId, id: RequestId)
    requires Accounted(w.server) && FlowOk(w) && UpOk(w) && Enabled(w, Deliver(s)) && s in w.honest
    requires Owned(w.server, id, s) && id in w.answers && id !in Step(w, Deliver(s)).server.pending
    ensures var calls := Step(w, Deliver(s)).server.calls; id in calls && calls[id] == [Expected(w.answers[id])]
  {
    var frame := w.up[s][0];
    ReceivedPending(w.server, frame, s, id);
    ReceivedCalls(w.server, frame, s);
    DeliveredIsAnswer(w, s);
    assert id !in w.server.calls;
  }

  /** An answered request that is pending has a frame in transit. */
  lemma FrameInTransit(w: World, s: SocketId, id: RequestId)
    requires FlowOk(w) && s in w.honest && s !in w.closed && Owned(w.server, id, s) && id in w.answers
    ensures Enabled(w, Deliver(s))
  {
    assert Flows(w, id, w.server.pending[id]);
  }

  lemma StillOwned(w: World, s: SocketId, id: RequestId)
    requires Enabled(w, Deliver(s)) && Owned(w.server, id, s) && id in Step(w, Deliver(s)).server.pending
    ensures Owned(Step(w, Deliver(s)).server, id, s)
    ensures |Queue(Step(w, Deliver(s)).up, s)| < |Queue(w.up, s)|
  {
    ReceivedPending(w.server, Queue(w.up, s)[0], s, id);
  }

  lemma DeliverLeaves(w: World, s: SocketId)
    requires Enabled(w, Deliver(s))
    ensures var next := Step(w, Deliver(s)); next.honest == w.honest && next.closed == w.closed && next.answers == w.answers
  {
  }

  /** One delivery: it settles the request, or leaves less in transit. */
  lemma OneDelivery(w: World, s: SocketId, id: RequestId)
    requires Inv(w) && s in w.honest && s !in w.closed && Owned(w.server, id, s) && id in w.answers
    ensures Enabled(w, Deliver(s)) && Inv(Step(w, Deliver(s)))
    ensures var next := Step(w, Deliver(s));
            && next.honest == w.honest && next.closed == w.closed && next.answers == w.answers
            && if id in next.server.pending then Owned(next.server, id, s) && |Queue(next.up, s)| < |Queue(w.up, s)|
               else id in next.server.calls && next.server.calls[id] == [Expected(w.answers[id])]
  {
    FrameInTransit(w, s, id);
    StepKeepsInv(w, Deliver(s));
    DeliverLeaves(w, s);
    if id in Step(w, Deliver(s)).server.pending {
      StillOwned(w, s, id);
    } else {
      LastFrameSettles(w, s, id);
    }
  }

  /** Nothing is lost on a socket that stays open: delivering what is in transit settles an answered request. */
  lemma {:induction false} AnswerGetsThrough(w: World, s: SocketId, id: RequestId) returns (events: seq<Event>, after: World)
    requires Inv(w) && s in w.honest && s !in w.closed
    requires Owned(w.server, id, s) && id in w.answers
    ensures Run(w, events, after) && forall e :: e in events ==> e == Deliver(s)
    ensures id in after.server.calls && after.server.calls[id] == [Expected(w.answers[id])]
    decreases |Queue(w.up, s)|
  {
    OneDelivery(w, s, id);
    var next, rest := Step(w, Deliver(s)), [];
    after := next;
    if id in next.server.pending {
      rest, after := AnswerGetsThrough(next, s, id);
    }
    events := [Deliver(s)] + rest;
    FirstOfRun(w, Deliver(s), rest, after);
  }

  lemma FirstOfRun(w: World, e: Event, rest: seq<Event>, after: World)
    requires Enabled(w, e) && Run(Step(w, e), rest, after)
    ensures Run(w, [e] + rest, after)
  {
    assert ([e] + rest)[1..] == rest;
  }

  /** An edge that announces itself again over a second socket leaves its requests on the first one pending when that closes. */
  lemma ReannouncedEdgeLeavesRequest(i: InstanceId, edge: Edge, again: Edge, request: Request, id: RequestId)
    returns (w: World)
    requires edge.socketId != again.socketId && id != ""
    ensures Run(Start({edge.socketId, again.socketId}),
                [Announce(i, edge), Proxy(i, request, id), Announce(i, again), Close(edge.socketId)], w)
    ensures edge.socketId in w.closed && Owned(w.server, id, edge.socketId) && id in w.server.timers && id !in w.server.calls
  {
    var a, start := edge.socketId, Start({edge.socketId, again.socketId});
    var e0, e1, e2, e3 := Announce(i, edge), Proxy(i, request, id), Announce(i, again), Close(a);
    var w1 := Step(start, e0);
    var w2 := Step(w1, e1);
    var w3 := Step(w2, e2);
    assert !SocketHasEdge(w3.server, a);
    w := Step(w3, e3);
    FirstOfRun(w3, e3, [], w);
    FirstOfRun(w2, e2, [e3], w);
    FirstOfRun(w1, e1, [e2] + [e3], w);
    FirstOfRun(start, e0, [e1] + ([e2] + [e3]), w);
    assert [e0] + ([e1] + ([e2] + [e3])) == [e0, e1, e2, e3];
  }

  // ---- Edges stay announced ----

  /** What ends or replaces an announcement. */
  predicate Disturbs(e: Event, i: InstanceId, socket: SocketId) {
    (e.Announce? && e.instanceId == i) || (e.Close? && e.socket == socket)
  }

  lemma ReceivingKeepsEdges(s: State, frame: Frame, socket: SocketId, id: RequestId, reason: Code)
    ensures Received(s, frame, socket).edges == s.edges && Failed(s, id, reason).edges == s.edges
  {
  }

  lemma EdgeSurvives(w: World, e: Event, i: InstanceId)
    requires Enabled(w, e) && i in w.server.edges && !Disturbs(e, i, w.server.edges[i].socketId)
    ensures i in Step(w, e).server.edges && Step(w, e).server.edges[i] == w.server.edges[i]
  {
    match e
    case Close(socket) => DroppingIsOfSocket(w.server, socket);
    case Deliver(socket) => ReceivingKeepsEdges(w.server, Queue(w.up, socket)[0], socket, "", EdgeTimeout);
    case Timeout(id) => ReceivingKeepsEdges(w.server, End(id), "", id, EdgeTimeout);
    case _ =>
  }

  lemma {:induction false} EdgeStays(w: World, i: InstanceId, events: seq<Event>, after: World)
    requires Run(w, events, after) && i in w.server.edges
    requires forall e :: e in events ==> !Disturbs(e, i, w.server.edges[i].socketId)
    ensures i in after.server.edges && after.server.edges[i] == w.server.edges[i]
    decreases |events|
  {
    if events != [] {
      EdgeSurvives(w, events[0], i);
      EdgeStays(Step(w, events[0]), i, events[1..], after);
    }
  }

  /**
   After an announcement that nothing ends or replaces, whatever other edges and requests do, the edge is the one
   announced, and a request for it is sent over its socket, at the end of what waits there, with its timer armed.
   */
  lemma AnnouncedEdgeServes(w: World, i: InstanceId, edge: Edge, events: seq<Event>, after: World, request: Request, id: RequestId)
    requires Run(w, [Announce(i, edge)] + events, after)
    requires forall e :: e in events ==> !Disturbs(e, i, edge.socketId)
    requires Enabled(after, Proxy(i, request, id))
    ensures i in after.server.edges && after.server.edges[i] == edge
    ensures var t, s := Step(after, Proxy(i, request, id)), edge.socketId;
            && id in t.server.pending && t.server.pending[id].socketId == s && id in t.server.timers
            && id in t.asked && t.asked[id] == request
            && s in t.down && t.down[s] == Queue(after.down, s) + [FrameFor(id, request)]
            && AgreeOutside(after.server.pending, t.server.pending, {id}) && AgreeOutside(after.down, t.down, {s})
            && t.server.edges == after.server.edges
  {
    assert ([Announce(i, edge)] + events)[1..] == events;
    EdgeStays(Step(w, Announce(i, edge)), i, events, after);
  }

  // ---- A request can always get through ----

  predicate Sendable(request: Request) { request.verb != "" && request.path != "" }

  predicate Queued(w: World, s: SocketId, id: RequestId) {
    exists k :: 0 <= k < |Queue(w.down, s)| && Queue(w.down, s)[k].id == id
  }

  /** A pending request waits to be dispatched, is being worked on, or is answered. */
  predicate UnderWay(w: World, s: SocketId, id: RequestId) {
    Queued(w, s, id) || (id in w.running && w.running[id] == s) || id in w.answers
  }

  predicate OpenTo(w: World, s: SocketId, id: RequestId) {
    s in w.honest && s !in w.closed && Owned(w.server, id, s) && id in w.asked && Sendable(w.asked[id])
  }

  ghost predicate NoneForgotten(w: World) {
    forall s, id :: OpenTo(w, s, id) ==> UnderWay(w, s, id)
  }

  lemma PushKeepsQueued(w: World, after: World, s: SocketId, id: RequestId, more: seq<RequestFrame>)
    requires Queued(w, s, id) && Queue(after.down, s) == Queue(w.down, s) + more
    ensures Queued(after, s, id)
  {
    var k :| 0 <= k < |Queue(w.down, s)| && Queue(w.down, s)[k].id == id;
    assert Queue(after.down, s)[k].id == id;
  }

  /** The first frame gone, and its request, if it makes one, on its way. */
  function Popped(w: World, socket: SocketId, id: RequestId, request: Option<Request>): World
    requires Queue(w.down, socket) != []
  {
    var popped := w.(down := w.down[socket := Queue(w.down, socket)[1..]]);
    match request
    case None => popped
    case Some(r) => popped.(running := w.running[id := socket], dispatched := w.dispatched[id := r])
  }

  lemma PoppingKeeps(w: World, socket: SocketId, id: RequestId, request: Option<Request>)
    requires Queue(w.down, socket) != []
    ensures var after, queue := Popped(w, socket, id, request), Queue(w.down, socket);
            && Queue(after.down, socket) == queue[1..] && AgreeOutside(w.down, after.down, {socket})
            && after.server == w.server && after.asked == w.asked && after.answers == w.answers
            && after.honest == w.honest && after.closed == w.closed
            && after.running == if request.Some? then w.running[id := socket] else w.running
  {
  }

  lemma DispatchPops(w: World, socket: SocketId)
    requires Enabled(w, Dispatch(socket))
    ensures var queue := Queue(w.down, socket); Step(w, Dispatch(socket)) == Popped(w, socket, queue[0].id, Dispatched(queue[0]))
  {
  }

  lemma StartsRunning(running: map<RequestId, SocketId>, id: RequestId, socket: SocketId)
    ensures AgreeOutside(running, running[id := socket], {id})
  {
  }

  /** What a dispatch does: the first frame goes, and its request is worked on if it can be sent at all. */
  lemma DispatchesFirst(w: World, socket: SocketId)
    requires Inv(w) && Enabled(w, Dispatch(socket))
    ensures var after, queue := Step(w, Dispatch(socket)), Queue(w.down, socket);
            var id := queue[0].id;
            && InTransit(w, socket, queue[0]) && Queue(after.down, socket) == queue[1..]
            && AgreeOutside(w.down, after.down, {socket})
            && after.server == w.server && after.asked == w.asked && after.answers == w.answers
            && after.honest == w.honest && after.closed == w.closed && AgreeOutside(w.running, after.running, {id})
            && (Sendable(w.asked[id]) ==> id in after.running && after.running[id] == socket)
            && (id in w.running ==> id in after.running)
  {
    var first := Queue(w.down, socket)[0];
    DispatchPops(w, socket);
    PoppingKeeps(w, socket, first.id, Dispatched(first));
    FirstIsInTransit(w, socket);
    StartsRunning(w.running, Queue(w.down, socket)[0].id, socket);
  }

  lemma FirstIsInTransit(w: World, socket: SocketId)
    requires Inv(w) && Enabled(w, Dispatch(socket))
    ensures var frame := Queue(w.down, socket)[0];
            && InTransit(w, socket, frame)
            && (Sendable(w.asked[frame.id]) ==> Dispatched(frame).Some?)
  {
    var frame := w.down[socket][0];
    assert InTransit(w, socket, frame);
    if Sendable(w.asked[frame.id]) {
      assert "" !in w.asked;
      DispatchedIsRequested(frame.id, w.asked[frame.id]);
    }
  }

  /** Dispatching the first of a queue leaves the others waiting, and the local app at work on the first. */
  lemma DispatchKeepsUnderWay(w: World, socket: SocketId, s: SocketId, id: RequestId)
    requires Inv(w) && Enabled(w, Dispatch(socket)) && OpenTo(w, s, id) && UnderWay(w, s, id)
    ensures UnderWay(Step(w, Dispatch(socket)), s, id)
  {
    var after := Step(w, Dispatch(socket));
    DispatchesFirst(w, socket);
    if Queued(w, s, id) {
      var k :| 0 <= k < |Queue(w.down, s)| && Queue(w.down, s)[k].id == id;
      if s != socket {
        assert Queue(after.down, s)[k].id == id;
      } else if k > 0 {
        assert Queue(after.down, s)[k - 1] == Queue(w.down, s)[k];
      }
    }
  }

  lemma ProxyKeepsUnderWay(w: World, i: InstanceId, request: Request, asked: RequestId, s: SocketId, id: RequestId)
    requires Inv(w) && NoneForgotten(w) && Enabled(w, Proxy(i, request, asked))
    requires OpenTo(Step(w, Proxy(i, request, asked)), s, id)
    ensures UnderWay(Step(w, Proxy(i, request, asked)), s, id)
  {
    var after := Step(w, Proxy(i, request, asked));
    if i in w.server.edges && id == asked {
      var queue := Queue(after.down, s);
      assert queue[|queue| - 1].id == id;
    } else {
      assert OpenTo(w, s, id);
      if Queued(w, s, id) {
        var more := if i in w.server.edges && w.server.edges[i].socketId == s then [FrameFor(asked, request)] else [];
        assert Queue(w.down, s) + [] == Queue(w.down, s);
        PushKeepsQueued(w, after, s, id, more);
      }
    }
  }

  lemma OtherStepsKeepUnderWay(w: World, e: Event, s: SocketId, id: RequestId)
    requires Inv(w) && NoneForgotten(w) && Enabled(w, e) && !e.Proxy? && !e.Dispatch?
    requires OpenTo(Step(w, e), s, id)
    ensures UnderWay(Step(w, e), s, id)
  {
    var after := Step(w, e);
    StillOpen(w, e, s, id);
    assert OpenTo(w, s, id);
    if Queued(w, s, id) {
      assert Queue(w.down, s) + [] == Queue(w.down, s);
      PushKeepsQueued(w, after, s, id, []);
    }
  }

  lemma StillOpen(w: World, e: Event, s: SocketId, id: RequestId)
    requires Enabled(w, e) && !e.Proxy? && OpenTo(Step(w, e), s, id)
    ensures OpenTo(w, s, id)
  {
    match e
    case Deliver(socket) => ReceivedOwned(w.server, Queue(w.up, socket)[0], socket, s, id);
    case Close(socket) => DroppingIsOfSocket(w.server, socket);
    case _ =>
  }

  lemma ReceivedOwned(s: State, frame: Frame, socket: SocketId, owner: SocketId, id: RequestId)
    requires Owned(Received(s, frame, socket), id, owner)
    ensures Owned(s, id, owner)
  {
  }

  lemma StepForgetsNone(w: World, e: Event)
    requires Inv(w) && NoneForgotten(w) && Enabled(w, e)
    ensures NoneForgotten(Step(w, e))
  {
    forall s, id | OpenTo(Step(w, e), s, id) ensures UnderWay(Step(w, e), s, id) {
      match e
      case Proxy(i, request, asked) => ProxyKeepsUnderWay(w, i, request, asked, s, id);
      case Dispatch(socket) =>
        StillOpen(w, e, s, id);
        DispatchKeepsUnderWay(w, socket, s, id);
      case _ => OtherStepsKeepUnderWay(w, e, s, id);
    }
  }

  lemma {:induction false} RunForgetsNone(w: World, events: seq<Event>, after: World)
    requires Inv(w) && NoneForgotten(w) && Run(w, events, after)
    ensures Inv(after) && NoneForgotten(after)
    decreases |events|
  {
    if events != [] {
      StepKeepsInv(w, events[0]);
      StepForgetsNone(w, events[0]);
      RunForgetsNone(Step(w, events[0]), events[1..], after);
    }
  }

  /** The events of one edge at work on one request. */
  predicate Serves(e: Event, s: SocketId, id: RequestId, answer: Answer) {
    e == Dispatch(s) || e == Complete(id, answer, Some(s)) || e == Deliver(s)
  }

  /** A run of such events that settles the request with the answer. */
  ghost predicate Settles(w: World, events: seq<Event>, after: World, s: SocketId, id: RequestId, answer: Answer) {
    && Run(w, events, after) && (forall e :: e in events ==> Serves(e, s, id, answer))
    && id in after.server.calls && after.server.calls[id] == [Expected(answer)]
  }

  lemma Before(w: World, e: Event, next: World, rest: seq<Event>, after: World, s: SocketId, id: RequestId, answer: Answer)
    requires Enabled(w, e) && Step(w, e) == next && Serves(e, s, id, answer) && Settles(next, rest, after, s, id, answer)
    ensures Settles(w, [e] + rest, after, s, id, answer)
  {
    FirstOfRun(w, e, rest, after);
  }

  /** A request that is worked on is answered, and the answer gets through. */
  lemma RunningGetsThrough(w: World, s: SocketId, id: RequestId, answer: Answer) returns (events: seq<Event>, after: World)
    requires Inv(w) && OpenTo(w, s, id) && id in w.running && w.running[id] == s
    ensures Settles(w, events, after, s, id, answer)
  {
    var e := Complete(id, answer, Some(s));
    var next := Step(w, e);
    StepKeepsInv(w, e);
    var rest;
    rest, after := AnswerGetsThrough(next, s, id);
    events := [e] + rest;
    Before(w, e, next, rest, after, s, id, answer);
  }

  lemma {:induction false} RunThen(w: World, events: seq<Event>, at: World, rest: seq<Event>, after: World)
    requires Run(w, events, at) && Run(at, rest, after)
    ensures Run(w, events + rest, after)
    decreases |events|
  {
    if events == [] {
      assert events + rest == rest;
    } else {
      RunThen(Step(w, events[0]), events[1..], at, rest, after);
      assert events + rest == [events[0]] + (events[1..] + rest);
      FirstOfRun(w, events[0], events[1..] + rest, after);
    }
  }

  /** All that dispatches leave as it is. */
  predicate SameServer(w: World, at: World) {
    at.server == w.server && at.asked == w.asked && at.answers == w.answers && at.honest == w.honest && at.closed == w.closed
  }

  lemma OneDispatch(w: World, s: SocketId)
    requires s in w.honest && s !in w.closed && Queue(w.down, s) != []
    ensures var next := Step(w, Dispatch(s));
            Enabled(w, Dispatch(s)) && SameServer(w, next) && Queue(next.down, s) == Queue(w.down, s)[1..]
  {
    DispatchPops(w, s);
    PoppingKeeps(w, s, Queue(w.down, s)[0].id, Dispatched(Queue(w.down, s)[0]));
  }

  /** Dispatching so many takes them off the queue. */
  lemma {:induction false} DispatchSome(w: World, s: SocketId, k: nat) returns (events: seq<Event>, at: World)
    requires s in w.honest && s !in w.closed && k < |Queue(w.down, s)|
    ensures Run(w, events, at) && forall e :: e in events ==> e == Dispatch(s)
    ensures SameServer(w, at) && Queue(at.down, s) == Queue(w.down, s)[k..]
    decreases k
  {
    events, at := [], w;
    if k > 0 {
      OneDispatch(w, s);
      var next := Step(w, Dispatch(s));
      var rest;
      rest, at := DispatchSome(next, s, k - 1);
      events := [Dispatch(s)] + rest;
      FirstOfRun(w, Dispatch(s), rest, at);
    }
  }

  /** The first that waits is dispatched, and worked on. */
  lemma FirstRuns(w: World, s: SocketId, id: RequestId)
    requires Inv(w) && OpenTo(w, s, id) && Queue(w.down, s) != [] && Queue(w.down, s)[0].id == id
    ensures var next := Step(w, Dispatch(s));
            Enabled(w, Dispatch(s)) && Inv(next) && OpenTo(next, s, id) && id in next.running && next.running[id] == s
  {
    StepKeepsInv(w, Dispatch(s));
    DispatchesFirst(w, s);
  }

  lemma FirstGetsThrough(w: World, s: SocketId, id: RequestId, answer: Answer) returns (events: seq<Event>, after: World)
    requires Inv(w) && OpenTo(w, s, id) && Queue(w.down, s) != [] && Queue(w.down, s)[0].id == id
    ensures Settles(w, events, after, s, id, answer)
  {
    FirstRuns(w, s, id);
    var next := Step(w, Dispatch(s));
    var rest;
    rest, after := RunningGetsThrough(next, s, id, answer);
    events := [Dispatch(s)] + rest;
    Before(w, Dispatch(s), next, rest, after, s, id, answer);
  }

  /** Any other is dispatched once those before it are. */
  lemma QueuedGetsThrough(w: World, s: SocketId, id: RequestId, answer: Answer, k: nat) returns (events: seq<Event>, after: World)
    requires Inv(w) && OpenTo(w, s, id) && k < |Queue(w.down, s)| && Queue(w.down, s)[k].id == id
    ensures Settles(w, events, after, s, id, answer)
  {
    var first, at := DispatchSome(w, s, k);
    RunKeepsInv(w, first, at);
    var rest;
    rest, after := FirstGetsThrough(at, s, id, answer);
    events := first + rest;
    RunThen(w, first, at, rest, after);
  }

  /**
   No request is forgotten: in every run, one still pending on an open honest socket can be settled, with the answer
   it has or with any other, by that edge alone and without a timer.
   */
  lemma RequestGetsThrough(honest: set<SocketId>, before: seq<Event>, w: World, s: SocketId, id: RequestId, answer: Answer)
    returns (events: seq<Event>, after: World)
    requires Run(Start(honest), before, w) && OpenTo(w, s, id)
    ensures Run(w, events, after) && forall e :: e in events ==> Serves(e, s, id, answer)
    ensures id in after.server.calls
    ensures after.server.calls[id] == [Expected(if id in w.answers then w.answers[id] else answer)]
  {
    RunForgetsNone(Start(honest), before, w);
    if id in w.answers {
      events, after := AnswerGetsThrough(w, s, id);
    } else if id in w.running && w.running[id] == s {
      events, after := RunningGetsThrough(w, s, id, answer);
    } else {
      var k :| 0 <= k < |Queue(w.down, s)| && Queue(w.down, s)[k].id == id;
      events, after := QueuedGetsThrough(w, s, id, answer, k);
    }
  }
}
