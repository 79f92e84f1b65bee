/**
 The read loop of a connection under the default dispatcher (server.go, `readLoop`, `handleProtocolPing`,
 `dispatchMessage`). Reading the socket, running a hub method and queueing a reply are outcomes given per frame.
 */
module ReadLoop {
  import opened Utf8
  import opened Protocol

  /** What reading the socket yields. */
  datatype Inbound = ReadError | Text | Binary(frame: seq<byte>)

  /** What a hub method leaves to reply with: an encodable result, one the codec refuses, or an error text. */
  datatype Dispatched = Value(body: seq<byte>) | Unencodable | Error(text: seq<byte>)

  /** `admitted`: the handler operation may begin. `queued`: the connection takes the reply frame. */
  datatype World = World(admitted: bool, dispatched: Dispatched, queued: bool)

  datatype Attempt = Silent | Reply(frame: seq<byte>) | Fails

  /** Queueing the frame for a reply message. */
  function Queue(codec: Serialization, maxPayload: int, m: Message, queued: bool): Attempt
  {
    var emitted := Emit(codec, NormalizeMaxPayloadSize(maxPayload), m);
    if emitted.Err? || !queued then Fails else Reply(emitted.value)
  }

  /** `dispatchMessage` and `handleProtocolPing` on one accepted message. */
  function Handle(m: Message, world: World, codec: Serialization, maxPayload: int): Attempt
  {
    if m.kind == KIND_PING then Queue(codec, maxPayload, Message(KIND_PONG, [], [], []), world.queued)
    else if m.kind == KIND_PONG then Silent
    else if !world.admitted then Fails
    else if m.kind == KIND_MESSAGE then
      if world.dispatched.Error? then Fails else Silent
    else if m.kind == KIND_INVOKE then
      match world.dispatched
      case Error(text) => Queue(codec, maxPayload, Message(KIND_ERROR, [], m.invocationID, text), world.queued)
      case Unencodable => Fails
      case Value(body) => Queue(codec, maxPayload, Message(KIND_COMPLETION, [], m.invocationID, body), world.queued)
    else Fails
  }

  /** One turn of the loop. */
  function Turn(input: Inbound, world: World, codec: Serialization, maxPayload: int): Attempt
  {
    if !input.Binary? then Fails
    else
      var r := Decode(input.frame, Body(codec), maxPayload);
      if r.Err? then Fails else Handle(r.value, world, codec, maxPayload)
  }

  // ---- what a reply has to be ---------------------------------------------------------

  /** Frames that ask for a reply: Ping and Invoke. */
  predicate Asks(input: Inbound, codec: Serialization, maxPayload: int)
  {
    && input.Binary?
    && Decode(input.frame, Body(codec), maxPayload).Ok?
    && var kind := Decode(input.frame, Body(codec), maxPayload).value.kind;
       kind == KIND_PING || kind == KIND_INVOKE
  }

  /** What the peer must read when it decodes the reply: a Pong, or the result or error under the same invocation id. */
  function Expected(question: Message, dispatched: Dispatched): Message
  {
    if question.kind == KIND_PING then Message(KIND_PONG, [], [], [])
    else match dispatched
      case Error(text) => Message(KIND_ERROR, [], question.invocationID, text)
      case Value(body) => Message(KIND_COMPLETION, [], question.invocationID, body)
      case Unencodable => Message(KIND_COMPLETION, [], question.invocationID, [])
  }

  predicate Answers(turn: (Inbound, World), reply: seq<byte>, codec: Serialization, maxPayload: int)
    requires Asks(turn.0, codec, maxPayload)
  {
    && (turn.1.dispatched.Unencodable? ==> Decode(turn.0.frame, Body(codec), maxPayload).value.kind == KIND_PING)
    && Decode(reply, Body(codec), maxPayload) ==
          Ok(Expected(Decode(turn.0.frame, Body(codec), maxPayload).value, turn.1.dispatched))
  }

  /** The turns whose frames ask, in order. */
  function Questions(turns: seq<(Inbound, World)>, codec: Serialization, maxPayload: int): (q: seq<(Inbound, World)>)
    ensures forall i :: 0 <= i < |q| ==> Asks(q[i].0, codec, maxPayload)
  {
    if turns == [] then []
    else
      var last := turns[|turns| - 1];
      Questions(turns[..|turns| - 1], codec, maxPayload) + if Asks(last.0, codec, maxPayload) then [last] else []
  }

  /** Queueing a reply to an Invoke can only fail by its size or at the queue: the id it echoes always passes. */
  lemma ReplyFailsOnlyBySize(frame: seq<byte>, codec: Serialization, maxPayload: int, kind: FrameKind, body: seq<byte>)
    requires Decode(frame, Body(codec), maxPayload).Ok?
    requires Decode(frame, Body(codec), maxPayload).value.kind == KIND_INVOKE
    requires kind == KIND_COMPLETION || kind == KIND_ERROR
    ensures var id := Decode(frame, Body(codec), maxPayload).value.invocationID;
            Emit(codec, NormalizeMaxPayloadSize(maxPayload), Message(kind, [], id, body)).Ok?
            <==> |body| <= NormalizeMaxPayloadSize(maxPayload) && |body| <= MAX_UINT32
  {
    DecodedIdPassesReplyCheck(frame, Body(codec), maxPayload);
  }

  lemma QueuedDecodes(codec: Serialization, maxPayload: int, m: Message, queued: bool)
    requires IsControl(m.kind) ==> m.payload == []
    ensures var a := Queue(codec, maxPayload, m, queued);
            !a.Silent? && (a.Reply? ==> Decode(a.frame, Body(codec), maxPayload) == Ok(m))
  {
    if Queue(codec, maxPayload, m, queued).Reply? {
      EmitThenDecode(codec, maxPayload, m);
    }
  }

  /** A turn that does not fail replies exactly to the frames that ask, and replies what they ask for. */
  lemma TurnAnswers(input: Inbound, world: World, codec: Serialization, maxPayload: int)
    ensures var a := Turn(input, world, codec, maxPayload);
            && (a.Reply? ==> Asks(input, codec, maxPayload) && Answers((input, world), a.frame, codec, maxPayload))
            && (a.Silent? ==> !Asks(input, codec, maxPayload))
  {
    if Asks(input, codec, maxPayload) {
      var m := Decode(input.frame, Body(codec), maxPayload).value;
      QueuedDecodes(codec, maxPayload, Expected(m, world.dispatched), world.queued);
    }
  }

  /** Why a turn ends the loop, in terms of what arrived and what the world did. */
  ghost predicate Ends(input: Inbound, world: World, codec: Serialization, maxPayload: int)
  {
    if !input.Binary? || Decode(input.frame, Body(codec), maxPayload).Err? then true
    else
      var kind := Decode(input.frame, Body(codec), maxPayload).value.kind;
      || kind == KIND_COMPLETION || kind == KIND_ERROR
      || (kind == KIND_PING && !world.queued)
      || ((kind == KIND_MESSAGE || kind == KIND_INVOKE) && !world.admitted)
      || (kind == KIND_MESSAGE && world.dispatched.Error?)
      || (kind == KIND_INVOKE
          && (!world.queued || world.dispatched.Unencodable? || TooLong(world.dispatched, maxPayload)))
  }

  predicate TooLong(d: Dispatched, maxPayload: int)
  {
    var n := match d case Value(body) => |body| case Error(text) => |text| case Unencodable => 0;
    n > NormalizeMaxPayloadSize(maxPayload) || n > MAX_UINT32
  }

  /**
   The loop ends exactly on unreadable input, a refused handler, a failed message handler or a reply that cannot be
   queued.
   */
  lemma FailsExactly(input: Inbound, world: World, codec: Serialization, maxPayload: int)
    ensures Turn(input, world, codec, maxPayload).Fails? <==> Ends(input, world, codec, maxPayload)
  {
    if input.Binary? && Decode(input.frame, Body(codec), maxPayload).Ok? {
      var m := Decode(input.frame, Body(codec), maxPayload).value;
      DecodeThenEmit(input.frame, codec, maxPayload);
      ValidPrefixFits(m.kind, m.name, m.invocationID);
      if m.kind == KIND_INVOKE && !world.dispatched.Unencodable? {
        var reply := Expected(m, world.dispatched);
        ReplyFailsOnlyBySize(input.frame, codec, maxPayload, reply.kind, reply.payload);
      }
    }
  }

  /** The replies answer, one each and in order, the frames that ask. */
  ghost predicate Answered(turns: seq<(Inbound, World)>, replies: seq<seq<byte>>, codec: Serialization, maxPayload: int)
  {
    var asked := Questions(turns, codec, maxPayload);
    && |replies| == |asked|
    && forall i :: 0 <= i < |asked| ==> Answers(asked[i], replies[i], codec, maxPayload)
  }

  lemma AnsweredExtends(turns: seq<(Inbound, World)>, turn: (Inbound, World), replies: seq<seq<byte>>,
                        codec: Serialization, maxPayload: int)
    requires Answered(turns, replies, codec, maxPayload)
    requires !Turn(turn.0, turn.1, codec, maxPayload).Fails?
    ensures var a := Turn(turn.0, turn.1, codec, maxPayload);
            Answered(turns + [turn], if a.Reply? then replies + [a.frame] else replies, codec, maxPayload)
  {
    TurnAnswers(turn.0, turn.1, codec, maxPayload);
    assert (turns + [turn])[..|turns|] == turns;
  }

  /** How many frames come before the first one whose turn fails. */
  function BeforeFailure(turns: seq<(Inbound, World)>, codec: Serialization, maxPayload: int): (n: nat)
    ensures n <= |turns|
  {
    if turns == [] || Turn(turns[0].0, turns[0].1, codec, maxPayload).Fails? then 0
    else 1 + BeforeFailure(turns[1..], codec, maxPayload)
  }

  /**
   The loop serves every frame before the first one that fails; the replies it has queued by then answer, one each and
   in order, the Pings and Invokes among the frames served.
   */
  method Serve(turns: seq<(Inbound, World)>, codec: Serialization, maxPayload: int)
    returns (replies: seq<seq<byte>>, served: nat)
    ensures served == BeforeFailure(turns, codec, maxPayload)
    ensures Answered(turns[..served], replies, codec, maxPayload)
  {
    replies, served := [], 0;
    while served < |turns|
      invariant served <= |turns|
      invariant served + BeforeFailure(turns[served..], codec, maxPayload) == BeforeFailure(turns, codec, maxPayload)
      invariant Answered(turns[..served], replies, codec, maxPayload)
    {
      var attempt := Turn(turns[served].0, turns[served].1, codec, maxPayload);
      if attempt.Fails? {
        return;
      }
      AnsweredExtends(turns[..served], turns[served], replies, codec, maxPayload);
      assert turns[..served + 1] == turns[..served] + [turns[served]];
      assert turns[served..][1..] == turns[served + 1..];
      if attempt.Reply? {
        replies := replies + [attempt.frame];
      }
      served := served + 1;
    }
  }
}
