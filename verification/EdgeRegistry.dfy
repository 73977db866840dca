/**
 The server side of the canvas-edge tunnel (src/edge/registry.js): which socket announced which edge,
 and the table of requests waiting for their response frames.
 */
module EdgeRegistry {
  import opened Wrappers
  import Text
  import Base64

  type InstanceId = string
  type SocketId = string
  type RequestId = string
  type Headers = map<string, string>
  type Bytes = Base64.Bytes

  /** What an edge says of itself: the id of its instance, and everything else (name, version, exports). */
  datatype Announcement = Announcement(instanceId: string, details: string)

  datatype Edge = Edge(socketId: SocketId, userId: string, announce: Announcement, connectedAt: int)

  datatype Head = Head(status: int, headers: Headers)

  /** A request in flight: the response head and body pieces so far, and the socket it was sent on. */
  datatype Pending = Pending(res: Option<Head>, chunks: seq<Bytes>, socketId: SocketId)

  datatype Code = EdgeGone | EdgeTimeout | EdgeProtocol | Reported(code: string)

  /** One call of a promise's `resolve` or `reject`. */
  datatype Outcome = Resolved(head: Head, body: Bytes) | Rejected(reason: Code)

  datatype Request = Request(verb: string, path: string, headers: Headers, body: Option<Bytes>)

  /** A body on the wire: marked as base64 text, or unmarked and taken as it is. */
  datatype Body = Base64Text(text: string) | Unmarked(bytes: Bytes)

  /** The `edge:req` frame. */
  datatype RequestFrame = RequestFrame(id: RequestId, verb: string, path: string, headers: Headers, body: Option<Body>)

  /** The frames an edge sends back: `edge:res`, `edge:chunk`, `edge:end` and `edge:err`. */
  datatype Frame =
    | Res(id: RequestId, head: Head)
    | Chunk(id: RequestId, number: nat, data: string)
    | End(id: RequestId)
    | Err(id: RequestId, code: string)

  /**
   The tables of the registry, and two records no field of it keeps: every request ever issued with
   its socket, and every settling call made on its promise.
   */
  datatype State = State(
    edges: map<InstanceId, Edge>,
    pending: map<RequestId, Pending>,
    timers: set<RequestId>,
    issued: map<RequestId, SocketId>,
    calls: map<RequestId, seq<Outcome>>)

  const EMPTY := State(map[], map[], {}, map[], map[])

  function CallsOf(s: State, id: RequestId): seq<Outcome> {
    if id in s.calls then s.calls[id] else []
  }

  function FrameFor(id: RequestId, request: Request): RequestFrame {
    RequestFrame(id, request.verb, request.path, request.headers,
                 match request.body
                 case Some(bytes) => Some(Base64Text(Base64.Encode(bytes)))
                 case None => None)
  }

  // What each operation does to the tables.

  function Announced(s: State, instanceId: InstanceId, edge: Edge): State {
    s.(edges := s.edges[instanceId := edge])
  }

  function Issued(s: State, id: RequestId, socketId: SocketId): State {
    s.(pending := s.pending[id := Pending(None, [], socketId)],
       timers := s.timers + {id},
       issued := s.issued[id := socketId])
  }

  /** Clears the timer, forgets the request and makes one settling call. */
  function Settled(s: State, id: RequestId, outcome: Outcome): State {
    s.(pending := s.pending - {id},
       timers := s.timers - {id},
       calls := s.calls[id := CallsOf(s, id) + [outcome]])
  }

  function Failed(s: State, id: RequestId, reason: Code): State {
    if id in s.pending then Settled(s, id, Rejected(reason)) else s
  }

  predicate Owned(s: State, id: RequestId, socketId: SocketId) {
    id in s.pending && s.pending[id].socketId == socketId
  }

  function Concat(chunks: seq<Bytes>): Bytes {
    if chunks == [] then [] else Concat(chunks[..|chunks| - 1]) + chunks[|chunks| - 1]
  }

  /** The pieces one after the other. */
  lemma {:induction false} ConcatInTwo(a: seq<Bytes>, b: seq<Bytes>, piece: Bytes)
    ensures Concat(a + b) == Concat(a) + Concat(b) && Concat([piece]) == piece && Concat([]) == []
  {
    assert [piece][..0] == [];
    if b == [] {
      assert a + b == a;
    } else {
      ConcatInTwo(a, b[..|b| - 1], piece);
      assert (a + b)[..|a + b| - 1] == a + b[..|b| - 1];
    }
  }

  /** What an `edge:end` settles a pending request with. */
  function Assembled(p: Pending): Outcome {
    match p.res
    case Some(head) => Resolved(head, Concat(p.chunks))
    case None => Rejected(EdgeProtocol)
  }

  function ErrorCode(code: string): Code {
    Reported(if code == "" then "EDGE_ERROR" else code)
  }

  /** A response frame arriving over a socket. */
  function Received(s: State, frame: Frame, socketId: SocketId): State {
    if !Owned(s, frame.id, socketId) then s
    else
      var p := s.pending[frame.id];
      match frame
      case Res(id, head) => s.(pending := s.pending[id := p.(res := Some(head))])
      case Chunk(id, _, data) =>
        if data == "" then s else s.(pending := s.pending[id := p.(chunks := p.chunks + [Base64.Decode(data)])])
      case End(id) => Settled(s, id, Assembled(p))
      case Err(id, code) => Settled(s, id, Rejected(ErrorCode(code)))
  }

  predicate SocketHasEdge(s: State, socketId: SocketId) {
    exists i :: i in s.edges && s.edges[i].socketId == socketId
  }

  function PendingOn(s: State, socketId: SocketId): set<RequestId> {
    set id | id in s.pending && s.pending[id].socketId == socketId
  }

  /** Rejects every request of a set with one reason. */
  function FailedAll(s: State, ids: set<RequestId>, reason: Code): State {
    s.(pending := s.pending - ids,
       timers := s.timers - (ids * s.pending.Keys),
       calls := map id | id in s.calls.Keys + ids * s.pending.Keys ::
                  if id in ids && id in s.pending then CallsOf(s, id) + [Rejected(reason)] else s.calls[id])
  }

  /** The effect of dropping a socket: its edges go, and only if it had one do its requests fail. */
  function Dropped(s: State, socketId: SocketId): State {
    if !SocketHasEdge(s, socketId) then s
    else
      FailedAll(s, PendingOn(s, socketId), EdgeGone)
      .(edges := map i | i in s.edges && s.edges[i].socketId != socketId :: s.edges[i])
  }

  /** Nothing has changed but for some requests. */
  ghost predicate OnlyRequests(s: State, t: State, ids: set<RequestId>) {
    && t.edges == s.edges && t.issued == s.issued
    && AgreeOutside(s.pending, t.pending, ids) && AgreeOutside(s.calls, t.calls, ids) && s.timers - ids == t.timers - ids
  }

  /** The edges of one socket are gone, and its requests rejected if it had one; nothing else has changed. */
  ghost predicate OnlySocketDropped(s: State, t: State, socketId: SocketId) {
    && (forall i :: i in t.edges <==> i in s.edges && s.edges[i].socketId != socketId)
    && (forall i :: i in t.edges ==> t.edges[i] == s.edges[i])
    && OnlyRequests(s.(edges := t.edges), t, PendingOn(s, socketId))
    && (t.edges == s.edges ==> t == s)
    && (t.edges != s.edges ==>
          forall id :: id in PendingOn(s, socketId) ==>
            id !in t.pending && id !in t.timers && CallsOf(t, id) == CallsOf(s, id) + [Rejected(EdgeGone)])
  }

  class EdgeRegistry {
    var edges: map<InstanceId, Edge>
    var pending: map<RequestId, Pending>
    var timers: set<RequestId>
    ghost var issued: map<RequestId, SocketId>
    ghost var calls: map<RequestId, seq<Outcome>>

    ghost function View(): State
      reads this
    {
      State(edges, pending, timers, issued, calls)
    }

    constructor ()
      ensures View() == EMPTY
    {
      edges, pending, timers, issued, calls := map[], map[], {}, map[], map[];
    }

    method Register(socketId: SocketId, userId: string, announce: Announcement, now: int) returns (r: Result<InstanceId, string>)
      modifies this
      ensures var instanceId := Text.Trim(announce.instanceId);
              if instanceId == "" then r.Failure? && View() == old(View())
              else r == Success(instanceId) && View() == Announced(old(View()), instanceId, Edge(socketId, userId, announce, now))
      ensures r.Success? ==> r.value in edges && edges[r.value] == Edge(socketId, userId, announce, now)
      ensures AgreeOutside(old(edges), edges, {Text.Trim(announce.instanceId)})
      ensures pending == old(pending) && timers == old(timers) && issued == old(issued) && calls == old(calls)
    {
      var instanceId := Text.Trim(announce.instanceId);
      if instanceId == "" {
        return Failure("edge announce requires instanceId");
      }
      edges := edges[instanceId := Edge(socketId, userId, announce, now)];
      r := Success(instanceId);
    }

    // The id stands for 18 random bytes, so it is one never used before.
    method ProxyRequest(instanceId: InstanceId, request: Request, id: RequestId)
      returns (r: Result<(SocketId, RequestFrame), Code>)
      requires id !in issued
      modifies this
      ensures if instanceId !in old(edges) then r == Failure(EdgeGone) && View() == old(View())
              else var socketId := old(edges)[instanceId].socketId;
                r == Success((socketId, FrameFor(id, request))) && View() == Issued(old(View()), id, socketId)
      ensures instanceId in old(edges) ==>
                var socketId := old(edges)[instanceId].socketId;
                && id in pending && pending[id] == Pending(None, [], socketId) && id in timers
                && issued == old(issued)[id := socketId] && calls == old(calls)
      ensures edges == old(edges) && AgreeOutside(old(pending), pending, {id}) && old(timers) - {id} == timers - {id}
    {
      if instanceId !in edges {
        return Failure(EdgeGone);
      }
      var edge := edges[instanceId];
      timers := timers + {id};
      pending := pending[id := Pending(None, [], edge.socketId)];
      issued := issued[id := edge.socketId];
      var body := None;
      if request.body.Some? {
        body := Some(Base64Text(Base64.Encode(request.body.value)));
      }
      r := Success((edge.socketId, RequestFrame(id, request.verb, request.path, request.headers, body)));
    }

    ghost method RecordCall(id: RequestId, outcome: Outcome)
      modifies this`calls
      ensures calls == old(calls)[id := CallsOf(old(View()), id) + [outcome]]
    {
      calls := calls[id := CallsOf(View(), id) + [outcome]];
    }

    method Fail(id: RequestId, reason: Code)
      modifies this
      ensures View() == Failed(old(View()), id, reason)
      ensures OnlyRequests(old(View()), View(), {id}) && id !in pending
      ensures CallsOf(View(), id) == CallsOf(old(View()), id) + if id in old(pending) then [Rejected(reason)] else []
      ensures id in old(pending) ==> id !in timers
    {
      if id !in pending {
        return;
      }
      timers := timers - {id};
      pending := pending - {id};
      RecordCall(id, Rejected(reason));
    }

    method HandleRes(id: RequestId, head: Head, socketId: SocketId)
      modifies this
      ensures View() == Received(old(View()), Res(id, head), socketId)
      ensures OnlyRequests(old(View()), View(), {id}) && timers == old(timers) && calls == old(calls)
      ensures id in pending <==> id in old(pending)
      ensures id in pending ==>
                pending[id] == if old(pending[id]).socketId == socketId then old(pending[id]).(res := Some(head)) else old(pending[id])
    {
      if id in pending && pending[id].socketId == socketId {
        pending := pending[id := pending[id].(res := Some(head))];
      }
    }

    method HandleChunk(id: RequestId, number: nat, data: string, socketId: SocketId)
      modifies this
      ensures View() == Received(old(View()), Chunk(id, number, data), socketId)
      ensures OnlyRequests(old(View()), View(), {id}) && timers == old(timers) && calls == old(calls)
      ensures id in pending <==> id in old(pending)
      ensures id in pending ==>
                && pending[id].res == old(pending[id]).res && pending[id].socketId == old(pending[id]).socketId
                && pending[id].chunks
                   == old(pending[id]).chunks
                      + if old(pending[id]).socketId == socketId && data != "" then [Base64.Decode(data)] else []
    {
      if id in pending && pending[id].socketId == socketId && data != "" {
        pending := pending[id := pending[id].(chunks := pending[id].chunks + [Base64.Decode(data)])];
      }
    }

    method HandleEnd(id: RequestId, socketId: SocketId)
      modifies this
      ensures View() == Received(old(View()), End(id), socketId)
      ensures OnlyRequests(old(View()), View(), {id})
      ensures if Owned(old(View()), id, socketId) then
                var p := old(pending[id]);
                && id !in pending && id !in timers
                && CallsOf(View(), id)
                   == CallsOf(old(View()), id)
                      + [if p.res.Some? then Resolved(p.res.value, Concat(p.chunks)) else Rejected(EdgeProtocol)]
              else View() == old(View())
    {
      if id !in pending || pending[id].socketId != socketId {
        return;
      }
      var p := pending[id];
      timers := timers - {id};
      pending := pending - {id};
      if p.res.None? {
        RecordCall(id, Rejected(EdgeProtocol));
        return;
      }
      var body := [];
      for i := 0 to |p.chunks|
        invariant body == Concat(p.chunks[..i])
      {
        assert p.chunks[..i + 1][..i] == p.chunks[..i];
        body := body + p.chunks[i];
      }
      assert p.chunks[..|p.chunks|] == p.chunks;
      RecordCall(id, Resolved(p.res.value, body));
    }

    method HandleErr(id: RequestId, code: string, socketId: SocketId)
      modifies this
      ensures View() == Received(old(View()), Err(id, code), socketId)
      ensures OnlyRequests(old(View()), View(), {id})
      ensures if Owned(old(View()), id, socketId) then
                && id !in pending && id !in timers
                && CallsOf(View(), id)
                   == CallsOf(old(View()), id) + [Rejected(Reported(if code == "" then "EDGE_ERROR" else code))]
              else View() == old(View())
    {
      if id !in pending || pending[id].socketId != socketId {
        return;
      }
      Fail(id, Reported(if code == "" then "EDGE_ERROR" else code));
    }

    /** Every announced edge is visited; each one over this socket is deleted and the socket's requests failed. */
    method RemoveBySocket(socketId: SocketId) returns (removed: set<InstanceId>)
      modifies this
      ensures View() == Dropped(old(View()), socketId)
      ensures OnlySocketDropped(old(View()), View(), socketId)
      ensures removed == old(edges).Keys - edges.Keys
    {
      ghost var before := View();
      ghost var failed := FailedAll(before, PendingOn(before, socketId), EdgeGone);
      removed := {};
      var todo := edges.Keys;
      while todo != {}
        invariant todo <= before.edges.Keys
        invariant forall i :: i in removed <==> i in before.edges && i !in todo && before.edges[i].socketId == socketId
        invariant edges == before.edges - removed
        invariant View() == (if removed == {} then before else failed).(edges := edges)
        decreases todo
      {
        var instanceId :| instanceId in todo;
        todo := todo - {instanceId};
        if edges[instanceId].socketId == socketId {
          edges := edges - {instanceId};
          FailingIsIdempotent(before, edges, socketId);
          removed := removed + {instanceId};
          FailSocket(socketId);
        }
      }
      assert removed == {} <==> !SocketHasEdge(before, socketId);
      assert edges == map i | i in before.edges && before.edges[i].socketId != socketId :: before.edges[i];
      DroppingIsOfSocket(before, socketId);
    }

    // The inner loop, over the requests pending on the socket.
    method FailSocket(socketId: SocketId)
      modifies this
      ensures View() == FailedAll(old(View()), PendingOn(old(View()), socketId), EdgeGone)
    {
      ghost var before := View();
      ghost var done: set<RequestId> := {};
      var todo := pending.Keys;
      while todo != {}
        invariant done + todo == before.pending.Keys && done !! todo
        invariant View() == FailedAll(before, done * PendingOn(before, socketId), EdgeGone)
        decreases todo
      {
        var id :| id in todo;
        ghost var failed := done * PendingOn(before, socketId);
        todo := todo - {id};
        done := done + {id};
        if pending[id].socketId == socketId {
          Fail(id, EdgeGone);
          FailedOneMore(before, failed, id, EdgeGone);
          assert done * PendingOn(before, socketId) == failed + {id};
        } else {
          assert done * PendingOn(before, socketId) == failed;
        }
      }
      assert done * PendingOn(before, socketId) == PendingOn(before, socketId);
    }
  }

  lemma FailingIsOfRequests(s: State, ids: set<RequestId>, reason: Code)
    requires ids <= s.pending.Keys
    ensures OnlyRequests(s, FailedAll(s, ids, reason), ids)
    ensures forall id :: id in ids ==>
              var t := FailedAll(s, ids, reason);
              id !in t.pending && id !in t.timers && CallsOf(t, id) == CallsOf(s, id) + [Rejected(reason)]
  {
    assert ids * s.pending.Keys == ids;
  }

  lemma DroppingIsOfSocket(s: State, socketId: SocketId)
    ensures OnlySocketDropped(s, Dropped(s, socketId), socketId)
  {
    if SocketHasEdge(s, socketId) {
      var i :| i in s.edges && s.edges[i].socketId == socketId;
      FailingIsOfRequests(s, PendingOn(s, socketId), EdgeGone);
      assert i !in Dropped(s, socketId).edges;
    }
  }

  lemma FailedOneMore(s: State, ids: set<RequestId>, id: RequestId, reason: Code)
    requires id in s.pending && id !in ids
    ensures Failed(FailedAll(s, ids, reason), id, reason) == FailedAll(s, ids + {id}, reason)
  {
  }

  lemma FailingIgnoresEdges(s: State, edges: map<InstanceId, Edge>, socketId: SocketId)
    ensures var other := s.(edges := edges);
            FailedAll(other, PendingOn(other, socketId), EdgeGone) == FailedAll(s, PendingOn(s, socketId), EdgeGone).(edges := edges)
  {
    assert PendingOn(s.(edges := edges), socketId) == PendingOn(s, socketId);
  }

  lemma FailingNone(s: State, reason: Code)
    ensures FailedAll(s, {}, reason) == s
  {
    assert {} * s.pending.Keys == {};
  }

  /** Failing a socket's requests again changes nothing, and it does not look at the edges. */
  lemma FailingIsIdempotent(s: State, edges: map<InstanceId, Edge>, socketId: SocketId)
    ensures var failed := FailedAll(s, PendingOn(s, socketId), EdgeGone).(edges := edges);
            var other := s.(edges := edges);
            && FailedAll(other, PendingOn(other, socketId), EdgeGone) == failed
            && FailedAll(failed, PendingOn(failed, socketId), EdgeGone) == failed
  {
    FailingIgnoresEdges(s, edges, socketId);
    var failed := FailedAll(s, PendingOn(s, socketId), EdgeGone).(edges := edges);
    assert PendingOn(failed, socketId) == {};
    FailingNone(failed, EdgeGone);
  }
}
