/** The WebSocket endpoint of backend/routes/ws.py: the tagged binary frames, the replies the
    endpoint sends for each message it receives, the receive loop, and the connection
    manager's list of open sockets. JSON text is not modelled: a received message is given
    already decoded, and an outgoing JSON message as a constructor of `Outgoing`. */
module Ws {
  import opened Wrappers
  import opened Bytes
  import opened Tensors
  import opened Layout
  import opened HookSpec
  import opened Qwen

  // ----- Binary frames -----

  /** Tag of the frame carrying the slice buffer. */
  const SlicesTag: nat := 1
  /** Tag of the frame carrying the token and dimension projection buffers. */
  const ProjectionsTag: nat := 2

  /** A binary frame, as sent. */
  datatype Frame =
    | SlicesFrame(slices: seq<byte>)
    | ProjectionsFrame(tokenProj: seq<byte>, dimProj: seq<byte>)

  /** `struct.pack('<I', tag)` followed by the payload, token projections before dimension
      projections. */
  function EncodeFrame(f: Frame): (b: seq<byte>)
    ensures |b| >= 4
  {
    match f
    case SlicesFrame(slices) => PackU32LE(SlicesTag) + slices
    case ProjectionsFrame(tok, dim) => PackU32LE(ProjectionsTag) + tok + dim
  }

  /** How a client reads a frame back: the first four bytes are the tag; a projections
      payload is split at `tokenProjSize`, the size announced by the preceding
      activation.projections message. */
  function ParseFrame(b: seq<byte>, tokenProjSize: nat): Option<Frame> {
    if |b| < 4 then None
    else
      var tag := UnpackU32LE(b[..4]);
      if tag == SlicesTag then Some(SlicesFrame(b[4..]))
      else if tag == ProjectionsTag && 4 + tokenProjSize <= |b| then
        Some(ProjectionsFrame(b[4..4 + tokenProjSize], b[4 + tokenProjSize..]))
      else None
  }

  /** The slice frame is `01 00 00 00` and then the slice bytes unchanged; the projections
      frame starts `02 00 00 00`. */
  lemma FrameHeaders(slices: seq<byte>, tok: seq<byte>, dim: seq<byte>)
    ensures EncodeFrame(SlicesFrame(slices)) == [1, 0, 0, 0] + slices
    ensures EncodeFrame(ProjectionsFrame(tok, dim))[..4] == [2, 0, 0, 0]
  {
  }

  /** Reading a frame back, with the announced size for a projections frame, gives the frame. */
  lemma ParseEncode(f: Frame, tokenProjSize: nat)
    requires f.ProjectionsFrame? ==> tokenProjSize == |f.tokenProj|
    ensures ParseFrame(EncodeFrame(f), tokenProjSize) == Some(f)
  {
    var b := EncodeFrame(f);
    match f
    case SlicesFrame(slices) =>
      assert b[..4] == PackU32LE(SlicesTag);
      UnpackPack(SlicesTag);
      assert b[4..] == slices;
    case ProjectionsFrame(tok, dim) =>
      assert b[..4] == PackU32LE(ProjectionsTag);
      UnpackPack(ProjectionsTag);
      assert b[4..4 + tokenProjSize] == tok;
      assert b[4 + tokenProjSize..] == dim;
  }

  /** Whatever reads as a frame is exactly that frame's encoding: the tag and the split
      lose nothing. */
  lemma EncodeParse(b: seq<byte>, tokenProjSize: nat)
    requires ParseFrame(b, tokenProjSize).Some?
    ensures EncodeFrame(ParseFrame(b, tokenProjSize).value) == b
  {
    PackUnpack(b[..4]);
    var tag := UnpackU32LE(b[..4]);
    if tag == SlicesTag {
      assert b == b[..4] + b[4..];
    } else {
      assert b == b[..4] + b[4..4 + tokenProjSize] + b[4 + tokenProjSize..];
    }
  }

  // ----- Messages -----

  /** A received text message. `json.loads` failing, a JSON value that is not an object (on
      which `msg.get` raises), an object whose `payload` is present but not an object (on which
      `payload.get` raises, but only in the inference.run branch), or an object with an
      optional `type` and an optional `payload.prompt` (a missing payload reads as `{}`). */
  datatype Request =
    | InvalidJson
    | NotAnObject
    | BadPayload(msgType: Option<string>)
    | Message(msgType: Option<string>, prompt: Option<string>)

  /** What the active adapter's inference returned, by the method the endpoint found on it. */
  datatype Inference =
    | SlicesRun(text: string, blockHeat: seq<real>, serialized: Serialized)  // forward_with_slices
    | HeatRun(text: string, blockHeat: seq<real>)                            // generate_with_hooks
    | PlainRun(text: string)                                                 // generate

  /** An outgoing message: one of the JSON messages by its `type`, or a binary frame. */
  datatype Outgoing =
    | Error(message: string)
    | ActivationFrame(blockHeat: seq<real>, modelId: string, prompt: string, numLayers: nat)
    | ActivationSlices(meta: SliceMeta)
    | ActivationProjections(numLayers: nat, seqLen: nat, dModel: nat, numStages: nat, tokenProjSize: nat)
    | InferenceResult(text: string, modelId: string)
    | Binary(bytes: seq<byte>)

  /** How f-strings print an optional message type. */
  function TypeText(t: Option<string>): string {
    match t
    case None => "None"
    case Some(s) => s
  }

  /** The messages sent after an inference returned, in order. */
  function InferenceReplies(prompt: string, modelId: string, run: Inference): seq<Outgoing> {
    match run
    case SlicesRun(text, heat, ser) =>
      [ActivationFrame(heat, modelId, prompt, |heat|), ActivationSlices(ser.meta)]
      + (if ser.slices != [] then [Binary(EncodeFrame(SlicesFrame(ser.slices)))] else [])
      + (if ser.tokenProj != [] && ser.dimProj != [] then
           [ActivationProjections(|heat|, ser.meta.seqLen, ser.meta.dModel, NumSlices, |ser.tokenProj|),
            Binary(EncodeFrame(ProjectionsFrame(ser.tokenProj, ser.dimProj)))]
         else [])
      + [InferenceResult(text, modelId)]
    case HeatRun(text, heat) =>
      [ActivationFrame(heat, modelId, prompt, |heat|), InferenceResult(text, modelId)]
    case PlainRun(text) =>
      [InferenceResult(text, modelId)]
  }

  /** Does handling this request call into the adapter? */
  predicate RunsInference(req: Request, active: Option<string>) {
    req.Message? && req.msgType == Some("inference.run") && active.Some?
  }

  /** One turn of the receive loop for a received message. `active` is the active id when
      the active adapter is loaded, None when there is no adapter or it is not loaded;
      `run` is what its inference returns, None when it raises. The result is None when the
      turn raises out of the loop, and otherwise the messages it sends. */
  function Turn(req: Request, active: Option<string>, run: Option<Inference>): Option<seq<Outgoing>> {
    match req
    case InvalidJson => Some([Error("Invalid JSON")])
    case NotAnObject => None
    case BadPayload(t) =>
      // the prompt is read before the loaded check, so this raises even with no model loaded
      if t != Some("inference.run") then Some([Error("Unknown message type: " + TypeText(t))])
      else None
    case Message(t, prompt) =>
      if t != Some("inference.run") then Some([Error("Unknown message type: " + TypeText(t))])
      else if active.None? then Some([Error("No model loaded.")])
      else if run.None? then None
      else Some(InferenceReplies(prompt.GetOr(""), active.value, run.value))
  }

  /** Does reading the message raise before any reply, whatever the adapter state? */
  predicate RaisesOnRead(req: Request) {
    req.NotAnObject? || (req.BadPayload? && req.msgType == Some("inference.run"))
  }

  /** Invalid JSON, an unknown type (whatever its payload) and an inference request without a
      loaded model each get exactly one error reply and no inference; an inference that
      returns gets replies ending in inference.result; the turn raises exactly on a
      non-object, on an inference.run whose payload is not an object (even with no model
      loaded), or on a raising inference. */
  lemma TurnCases(req: Request, active: Option<string>, run: Option<Inference>)
    ensures !RunsInference(req, active) && !RaisesOnRead(req) ==>
      Turn(req, active, run).Some? && |Turn(req, active, run).value| == 1 && Turn(req, active, run).value[0].Error?
    ensures RaisesOnRead(req) ==> Turn(req, active, run).None?
    ensures req.BadPayload? && req.msgType != Some("inference.run") ==>
      Turn(req, active, run) == Some([Error("Unknown message type: " + TypeText(req.msgType))])
    ensures RunsInference(req, active) ==>
      (Turn(req, active, run).None? <==> run.None?)
    ensures RunsInference(req, active) && run.Some? ==>
      var out := Turn(req, active, run).value;
      |out| >= 1 && out[|out| - 1] == InferenceResult(run.value.text, active.value)
        && forall k :: 0 <= k < |out| ==> !out[k].Error?
  {
    if RunsInference(req, active) && run.Some? {
      var out := Turn(req, active, run).value;
      assert out == InferenceReplies(req.prompt.GetOr(""), active.value, run.value);
    }
  }

  /** The slices path sends activation.frame, then activation.slices, then the 0x01 frame
      exactly when there are slice bytes, then activation.projections and the 0x02 frame
      exactly when both projection buffers are non-empty, then inference.result; activation.frame
      reports as many layers as there are heat values, activation.projections six stages and
      the size at which the 0x02 frame's payload splits back into its two buffers. */
  lemma SlicesReplyOrder(prompt: string, modelId: string, text: string, heat: seq<real>, ser: Serialized)
    ensures var out := InferenceReplies(prompt, modelId, SlicesRun(text, heat, ser));
      var hasSlices := ser.slices != [];
      var hasProj := ser.tokenProj != [] && ser.dimProj != [];
      var p := if hasSlices then 3 else 2;
      && |out| == 3 + (if hasSlices then 1 else 0) + (if hasProj then 2 else 0)
      && out[0] == ActivationFrame(heat, modelId, prompt, |heat|)
      && out[1] == ActivationSlices(ser.meta)
      && (hasSlices ==> out[2].Binary? && ParseFrame(out[2].bytes, 0) == Some(SlicesFrame(ser.slices)))
      && (hasProj ==>
            && out[p].ActivationProjections? && out[p].numLayers == |heat| && out[p].numStages == 6
            && out[p + 1].Binary?
            && ParseFrame(out[p + 1].bytes, out[p].tokenProjSize) == Some(ProjectionsFrame(ser.tokenProj, ser.dimProj)))
      && out[|out| - 1] == InferenceResult(text, modelId)
  {
    ParseEncode(SlicesFrame(ser.slices), 0);
    ParseEncode(ProjectionsFrame(ser.tokenProj, ser.dimProj), |ser.tokenProj|);
  }

  /** When the forward pass captured no resid_pre, the slices path sends only activation.frame,
      activation.slices with zero dimensions, and inference.result: no binary frame. */
  lemma NothingCapturedSendsNoFrames(nm: Numerics, s: Slots, prompt: string, modelId: string, text: string, heat: seq<real>)
    requires SlotsFor(s, |s.residPre|)
    requires forall i :: 0 <= i < |s.residPre| ==> s.residPre[i].None?
    ensures InferenceReplies(prompt, modelId, SlicesRun(text, heat, Serialize(nm, s))) ==
      [ActivationFrame(heat, modelId, prompt, |heat|),
       ActivationSlices(SliceMeta(SliceNames, |s.residPre|, 0, 0)),
       InferenceResult(text, modelId)]
  {
    NothingCapturedIsEmpty(nm, s);
  }

  /** The Qwen adapter's `forward_with_slices` result, as the endpoint receives it. */
  function FromSliceOutput(o: SliceOutput): Inference
  {
    SlicesRun(o.text, o.blockHeat, o.serialized)
  }

  /** For the Qwen adapter, activation.frame reports 28 layers, and the replies to a forward
      pass carry both binary frames (six messages) when a resid_pre with non-zero dimensions
      was captured, and neither (three messages) otherwise. */
  lemma QwenSlicesReplies(nm: Numerics, s: Slots, prompt: string, modelId: string, text: string)
    requires WellBehaved(nm) && SlotsFor(s, NumLayers) && ShapesAgree(s)
    ensures var ser := Serialize(nm, s);
      var out := InferenceReplies(prompt, modelId, FromSliceOutput(SliceOutput(text, BlockHeat(nm, s), ser)));
      && out[0].ActivationFrame? && out[0].numLayers == NumLayers
      && (ser.meta.seqLen > 0 && ser.meta.dModel > 0 ==> |out| == 6)
      && (ser.meta.seqLen == 0 || ser.meta.dModel == 0 ==> |out| == 3)
  {
    var ser := Serialize(nm, s);
    SerializedSizes(nm, s);
    SlicesReplyOrder(prompt, modelId, text, BlockHeat(nm, s), ser);
    var r, c := ser.meta.seqLen, ser.meta.dModel;
    ProductPositive(r, c);
    assert |ser.slices| == 672 * (r * c) && |ser.tokenProj| == 672 * r && |ser.dimProj| == 672 * c;
  }

  lemma ProductPositive(r: nat, c: nat)
    ensures r * c > 0 <==> r > 0 && c > 0
  {
    if r > 0 && c > 0 {
      assert r * c >= c;
    }
  }

  // ----- The receive loop -----

  /** What the socket delivers next: a text message (with the server state and the adapter's
      result for it, as above), or the client's disconnect. */
  datatype Event =
    | Received(req: Request, active: Option<string>, run: Option<Inference>)
    | Disconnected

  /** How the loop ended: still waiting, left on `WebSocketDisconnect`, or left by any other
      exception (which `except WebSocketDisconnect` does not catch). */
  datatype Ending = Open | ClosedByClient | Raised

  /** The messages sent over a sequence of events, and how the loop stands after them. */
  function Session(events: seq<Event>): (r: (seq<Outgoing>, Ending))
    decreases |events|
  {
    if events == [] then ([], Open)
    else
      var prev := Session(events[..|events| - 1]);
      if prev.1 != Open then prev
      else
        match events[|events| - 1]
        case Disconnected => (prev.0, ClosedByClient)
        case Received(req, active, run) =>
          match Turn(req, active, run)
          case None => (prev.0, Raised)
          case Some(out) => (prev.0 + out, Open)
  }

  /** Once the loop has ended, later events change nothing: nothing more is sent. */
  lemma {:induction false} SessionEnded(events: seq<Event>, k: nat)
    requires k <= |events| && Session(events[..k]).1 != Open
    ensures Session(events) == Session(events[..k])
    decreases |events| - k
  {
    if k < |events| {
      var next := events[..k + 1];
      assert next[..k] == events[..k];
      assert Session(next) == Session(events[..k]);
      SessionEnded(events, k + 1);
    } else {
      assert events[..k] == events;
    }
  }

  /** While the loop runs, what was sent is never taken back: a longer run of events sends
      what the shorter one sent, and then more. */
  lemma {:induction false} SessionExtends(events: seq<Event>, k: nat)
    requires k <= |events|
    ensures Session(events[..k]).0 <= Session(events).0
    decreases |events| - k
  {
    if k < |events| {
      var next := events[..k + 1];
      assert next[..k] == events[..k];
      SessionExtends(events, k + 1);
    } else {
      assert events[..k] == events;
    }
  }

  // ----- Connection manager -----

  /** A socket, by identity. */
  type Socket = nat

  /** `list.remove`: drops the first occurrence. */
  function RemoveFirst(s: seq<Socket>, x: Socket): (r: seq<Socket>)
    requires x in s
    ensures |r| == |s| - 1
    ensures multiset(r) == multiset(s) - multiset{x}
    decreases |s|
  {
    assert s == [s[0]] + s[1..];
    if s[0] == x then s[1..] else [s[0]] + RemoveFirst(s[1..], x)
  }

  /** Removing what was just appended, when it was not there before, restores the list. */
  lemma {:induction false} RemoveAppended(s: seq<Socket>, x: Socket)
    requires x !in s
    ensures RemoveFirst(s + [x], x) == s
    decreases |s|
  {
    if s != [] {
      assert (s + [x])[1..] == s[1..] + [x];
      RemoveAppended(s[1..], x);
    }
  }

  class ConnectionManager {
    /** `active`: the open sockets, in connection order. */
    var active: seq<Socket>

    constructor ()
      ensures active == []
    {
      active := [];
    }

    /** `connect`: the socket is accepted (I/O, not modelled) and appended. */
    method Connect(ws: Socket)
      modifies this
      ensures active == old(active) + [ws]
    {
      active := active + [ws];
    }

    /** `disconnect`: `list.remove`, which raises ValueError (found == false, list unchanged)
        when the socket is not in the list. */
    method Disconnect(ws: Socket) returns (found: bool)
      modifies this
      ensures found <==> ws in old(active)
      ensures found ==> active == RemoveFirst(old(active), ws)
      ensures !found ==> active == old(active)
    {
      found := ws in active;
      if found {
        active := RemoveFirst(active, ws);
      }
    }

    /** `websocket_endpoint`: connect, then answer each message in turn until the client
        disconnects (and the socket is dropped from the list) or a turn raises (and it stays
        in the list); with events left over the loop is still waiting. */
    method Endpoint(ws: Socket, events: seq<Event>) returns (sent: seq<Outgoing>, ending: Ending)
      requires ws !in active
      modifies this
      ensures (sent, ending) == Session(events)
      ensures ending == ClosedByClient ==> active == old(active)
      ensures ending != ClosedByClient ==> active == old(active) + [ws]
    {
      Connect(ws);
      sent, ending := [], Open;
      var k := 0;
      while k < |events| && ending == Open
        invariant 0 <= k <= |events|
        invariant (sent, ending) == Session(events[..k])
        invariant ending == ClosedByClient ==> active == old(active)
        invariant ending != ClosedByClient ==> active == old(active) + [ws]
      {
        assert events[..k + 1][..k] == events[..k];
        match events[k] {
          case Disconnected =>
            var found := Disconnect(ws);
            RemoveAppended(old(active), ws);
            ending := ClosedByClient;
          case Received(req, active', run) =>
            var turn := Turn(req, active', run);
            if turn.None? {
              ending := Raised;
            } else {
              sent := sent + turn.value;
            }
        }
        k := k + 1;
      }
      if ending != Open {
        SessionEnded(events, k);
      } else {
        assert events[..k] == events;
      }
    }
  }
}
