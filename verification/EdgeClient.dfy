/** The edge side of the tunnel (src/edge/EdgeClient.js): dispatching a request and streaming the answer back. */
module EdgeClient {
  import opened Wrappers
  import opened EdgeRegistry
  import Base64

  const CHUNK_SIZE := 256 * 1024

  /** What the local app does with a request: answers it, or throws. */
  datatype Answer = Answered(head: Head, payload: Bytes) | Threw

  /** The request a frame asks for; a frame without id, method or path is dropped. */
  function Dispatched(frame: RequestFrame): Option<Request> {
    if frame.id == "" || frame.verb == "" || frame.path == "" then None
    else Some(Request(frame.verb, frame.path, frame.headers,
                      match frame.body
                      case Some(Base64Text(text)) => Some(Base64.Decode(text))
                      case Some(Unmarked(bytes)) => Some(bytes)
                      case None => None))
  }

  /** The dispatched request is the one the server was asked to forward, body bytes included. */
  lemma DispatchedIsRequested(id: RequestId, request: Request)
    requires id != "" && request.verb != "" && request.path != ""
    ensures Dispatched(FrameFor(id, request)) == Some(request)
  {
    match request.body
    case Some(bytes) => Base64.DecodeEncode(bytes);
    case None =>
  }

  function ChunkEnd(payload: Bytes, offset: nat): nat {
    if offset + CHUNK_SIZE < |payload| then offset + CHUNK_SIZE else |payload|
  }

  function ChunkFrames(id: RequestId, payload: Bytes, offset: nat, number: nat): seq<Frame>
    decreases |payload| - offset
  {
    if offset >= |payload| then []
    else
      [Chunk(id, number, Base64.Encode(payload[offset..ChunkEnd(payload, offset)]))]
      + ChunkFrames(id, payload, offset + CHUNK_SIZE, number + 1)
  }

  lemma FirstChunk(id: RequestId, payload: Bytes, offset: nat, number: nat)
    requires offset < |payload|
    ensures var frames, rest := ChunkFrames(id, payload, offset, number), ChunkFrames(id, payload, offset + CHUNK_SIZE, number + 1);
            && |frames| == 1 + |rest|
            && frames[0] == Chunk(id, number, Base64.Encode(payload[offset..ChunkEnd(payload, offset)]))
            && forall k :: 1 <= k < |frames| ==> frames[k] == rest[k - 1]
  {
  }

  function ChunkStart(offset: nat, k: nat): nat { offset + k * CHUNK_SIZE }

  lemma NextStart(offset: nat, k: nat)
    requires k > 0
    ensures ChunkStart(offset + CHUNK_SIZE, k - 1) == ChunkStart(offset, k)
  {
  }

  lemma ChunkAfterFirst(id: RequestId, payload: Bytes, offset: nat, number: nat, k: nat)
    requires offset < |payload| && 0 < k < |ChunkFrames(id, payload, offset, number)|
    ensures var rest := ChunkFrames(id, payload, offset + CHUNK_SIZE, number + 1);
            k - 1 < |rest| && ChunkFrames(id, payload, offset, number)[k] == rest[k - 1]
  {
    FirstChunk(id, payload, offset, number);
  }

  /** Number `k` of the chunks is that many times the chunk size into the payload. */
  lemma {:induction false} ChunksAreNumbered(id: RequestId, payload: Bytes, offset: nat, number: nat, k: nat)
    requires k < |ChunkFrames(id, payload, offset, number)|
    ensures ChunkStart(offset, k) < |payload|
    ensures ChunkFrames(id, payload, offset, number)[k] == ChunkAt(id, payload, ChunkStart(offset, k), number + k)
    decreases k
  {
    if k == 0 {
      FirstChunk(id, payload, offset, number);
    } else {
      ChunkAfterFirst(id, payload, offset, number, k);
      ChunksAreNumbered(id, payload, offset + CHUNK_SIZE, number + 1, k - 1);
      NextStart(offset, k);
    }
  }

  /** A chunk of the payload from some offset, whole or up to its end. */
  function ChunkAt(id: RequestId, payload: Bytes, from: nat, number: nat): Frame
    requires from < |payload|
  {
    Chunk(id, number, Base64.Encode(payload[from..if from + CHUNK_SIZE < |payload| then from + CHUNK_SIZE else |payload|]))
  }

  /** So many chunks are as many as it takes, each whole but the last. */
  predicate Cover(chunks: nat, length: int) {
    if length <= 0 then chunks == 0 else chunks >= 1 && (chunks - 1) * CHUNK_SIZE < length <= chunks * CHUNK_SIZE
  }

  lemma OneMoreCovers(chunks: nat, length: int)
    requires length > 0 && Cover(chunks, length - CHUNK_SIZE)
    ensures Cover(chunks + 1, length)
  {
  }

  lemma {:induction false} ChunksCover(id: RequestId, payload: Bytes, offset: nat, number: nat)
    ensures Cover(|ChunkFrames(id, payload, offset, number)|, |payload| - offset)
    decreases |payload| - offset
  {
    if offset < |payload| {
      FirstChunk(id, payload, offset, number);
      ChunksCover(id, payload, offset + CHUNK_SIZE, number + 1);
      OneMoreCovers(|ChunkFrames(id, payload, offset + CHUNK_SIZE, number + 1)|, |payload| - offset);
    }
  }

  /** Every frame sent for one request. */
  function Script(id: RequestId, answer: Answer): seq<Frame> {
    match answer
    case Answered(head, payload) => [Res(id, head)] + ChunkFrames(id, payload, 0, 0) + [End(id)]
    case Threw => [Err(id, "EDGE_DISPATCH_FAILED")]
  }

  class EdgeClient {
    var sent: seq<Frame>  // the frames emitted on the socket, in order

    constructor ()
      ensures sent == []
    {
      sent := [];
    }

    /** `answer` is what the local app makes of the request. */
    method HandleRequest(frame: RequestFrame, answer: Answer) returns (request: Option<Request>)
      modifies this
      ensures request == Dispatched(frame)
      ensures sent == old(sent) + if request.Some? then Script(frame.id, answer) else []
      ensures request.None? <==> frame.id == "" || frame.verb == "" || frame.path == ""
      ensures request.Some? ==>
                && request.value.verb == frame.verb && request.value.path == frame.path && request.value.headers == frame.headers
                && (frame.body.None? ==> request.value.body.None?)
                && (frame.body.Some? && frame.body.value.Unmarked? ==> request.value.body == Some(frame.body.value.bytes))
                && (frame.body.Some? && frame.body.value.Base64Text? ==>
                      request.value.body == Some(Base64.Decode(frame.body.value.text)))
    {
      if frame.id == "" || frame.verb == "" || frame.path == "" {
        return None;
      }
      var body := None;
      match frame.body {
        case None =>
        case Some(Base64Text(text)) => body := Some(Base64.Decode(text));
        case Some(Unmarked(bytes)) => body := Some(bytes);
      }
      request := Some(Request(frame.verb, frame.path, frame.headers, body));
      var id := frame.id;
      match answer
      case Threw => sent := sent + [Err(id, "EDGE_DISPATCH_FAILED")];
      case Answered(head, payload) =>
        sent := sent + [Res(id, head)];
        var offset, number := 0, 0;
        while offset < |payload|
          invariant sent + ChunkFrames(id, payload, offset, number)
                 == old(sent) + [Res(id, head)] + ChunkFrames(id, payload, 0, 0)
        {
          ghost var rest := ChunkFrames(id, payload, offset + CHUNK_SIZE, number + 1);
          var next := Chunk(id, number, Base64.Encode(payload[offset..ChunkEnd(payload, offset)]));
          assert sent + ([next] + rest) == (sent + [next]) + rest;
          sent := sent + [next];
          offset, number := offset + CHUNK_SIZE, number + 1;
        }
        assert sent + [] == sent;
        sent := sent + [End(id)];
        assert sent == old(sent) + ([Res(id, head)] + ChunkFrames(id, payload, 0, 0) + [End(id)]);
    }
  }
}
