/** LengthHeaderCodec: messages framed by a four-byte big-endian length. */
module LengthHeaderCodec {
  import opened Bytes
  import opened Buffers

  const HEADER_LEN: nat := 4
  const MAX_MESSAGE_LEN: int := 65536
  const MIN_MESSAGE_LEN: int := 0

  /** Messages handed to the callback, bytes left over, and whether shutdown was asked for. */
  datatype Outcome = Outcome(messages: seq<seq<byte>>, rest: seq<byte>, invalid: bool)

  function Then(first: Outcome, second: Outcome): Outcome {
    Outcome(first.messages + second.messages, second.rest, first.invalid || second.invalid)
  }

  datatype Step = Wait | Invalid | Take(bodyLen: nat)

  /** What one turn of the loop in onMessage decides. */
  function Next(s: seq<byte>): (step: Step)
    ensures step.Take? ==> |s| >= HEADER_LEN + step.bodyLen && step.bodyLen <= MAX_MESSAGE_LEN
  {
    if |s| <= HEADER_LEN then Wait else
      var bodyLen := Decode(s[..HEADER_LEN]);
      if bodyLen > MAX_MESSAGE_LEN || bodyLen < MIN_MESSAGE_LEN then Invalid
      else if |s| >= bodyLen + HEADER_LEN then Take(bodyLen)
      else Wait
  }

  /** What one call of onMessage does with a stream. */
  function Decoded(s: seq<byte>): Outcome
    decreases |s|
  {
    match Next(s)
    case Wait => Outcome([], s, false)
    case Invalid => Outcome([], s, true)
    case Take(bodyLen) =>
      var tail := Decoded(s[HEADER_LEN + bodyLen..]);
      tail.(messages := [s[HEADER_LEN..HEADER_LEN + bodyLen]] + tail.messages)
  }

  method OnMessage(message: Buffer) returns (delivered: seq<seq<byte>>, shutdown: bool)
    requires message.Valid()
    modifies message
    ensures message.Valid() && message.buffer == old(message.buffer)
    ensures Outcome(delivered, message.Contents(), shutdown) == Decoded(old(message.Contents()))
  {
    hide Next, Decoded;
    ghost var whole := Decoded(message.Contents());
    delivered, shutdown := [], false;
    assert [] + whole.messages == whole.messages;
    while message.ReadableBytes() > HEADER_LEN
      invariant message.Valid() && message.buffer == old(message.buffer)
      invariant whole == Then(Outcome(delivered, [], false), Decoded(message.Contents()))
      decreases message.ReadableBytes()
    {
      DecodedTurn(message.Contents());
      var bodyLen := PeekHeader(message);
      if bodyLen > MAX_MESSAGE_LEN || bodyLen < MIN_MESSAGE_LEN {
        assert delivered + [] == delivered;
        shutdown := true;
        return;
      } else if message.ReadableBytes() >= bodyLen + HEADER_LEN {
        ghost var tail := Decoded(message.Contents()[HEADER_LEN + bodyLen..]);
        var body := TakeMessage(message, bodyLen);
        assert delivered + ([body] + tail.messages) == (delivered + [body]) + tail.messages;
        delivered := delivered + [body];
      } else {
        break;
      }
    }
    DecodedTurn(message.Contents());
    NextOfShort(message.Contents());
    assert delivered + [] == delivered;
  }

  /** The turn of the loop that delivers: header retrieved, body copied out, body retrieved. */
  method TakeMessage(message: Buffer, bodyLen: nat) returns (body: seq<byte>)
    requires message.Valid() && HEADER_LEN + bodyLen <= message.ReadableBytes()
    modifies message
    ensures message.Valid() && message.buffer == old(message.buffer)
    ensures body == old(message.Contents()[HEADER_LEN..HEADER_LEN + bodyLen])
    ensures message.Contents() == old(message.Contents()[HEADER_LEN + bodyLen..])
  {
    ghost var was := message.Contents();
    message.Retrieve(HEADER_LEN);
    assert message.Contents()[..bodyLen] == was[HEADER_LEN..HEADER_LEN + bodyLen];
    assert message.Contents()[bodyLen..] == was[HEADER_LEN + bodyLen..];
    body := message.buffer[message.readerIndex..message.readerIndex + bodyLen];
    assert body == message.Contents()[..bodyLen];
    message.Retrieve(bodyLen);
  }

  /** The definition of Decoded, unrolled once. */
  lemma DecodedTurn(s: seq<byte>)
    ensures Next(s).Wait? ==> Decoded(s) == Outcome([], s, false)
    ensures Next(s).Invalid? ==> Decoded(s) == Outcome([], s, true)
    ensures Next(s).Take? ==>
      var next := HEADER_LEN + Next(s).bodyLen;
      Decoded(s) == Then(Outcome([s[HEADER_LEN..next]], [], false), Decoded(s[next..]))
  {
    hide Next;
  }

  lemma NextOfShort(s: seq<byte>)
    ensures |s| <= HEADER_LEN ==> Next(s) == Wait
  {
  }

  method PeekHeader(message: Buffer) returns (bodyLen: int)
    requires message.Valid() && message.ReadableBytes() >= HEADER_LEN
    ensures bodyLen == Decode(message.Contents()[..HEADER_LEN])
    ensures message.ReadableBytes() > HEADER_LEN ==>
      Next(message.Contents()) ==
        if bodyLen > MAX_MESSAGE_LEN || bodyLen < MIN_MESSAGE_LEN then Invalid
        else if message.ReadableBytes() >= bodyLen + HEADER_LEN then Take(bodyLen)
        else Wait
  {
    bodyLen := message.PeekInt(HEADER_LEN);
    DecodeOfEncode(HEADER_LEN, bodyLen);
  }

  // ------------------------------------------------------ chunk independence

  /** A decision other than to wait does not depend on what follows. */
  lemma NextIsStable(s: seq<byte>, more: seq<byte>)
    requires Next(s) != Wait
    ensures Next(s + more) == Next(s)
  {
    assert (s + more)[..HEADER_LEN] == s[..HEADER_LEN];
  }

  /** onMessage can be stopped after any prefix and resumed on what it left over. */
  lemma {:induction false} DecodedResumes(s: seq<byte>, more: seq<byte>)
    ensures Decoded(s + more) == Then(Decoded(s), Decoded(Decoded(s).rest + more))
    decreases |s|
  {
    hide Next;
    match Next(s)
    case Wait =>
      assert [] + Decoded(s + more).messages == Decoded(s + more).messages;
    case Invalid =>
      NextIsStable(s, more);
    case Take(bodyLen) =>
      NextIsStable(s, more);
      var next := HEADER_LEN + bodyLen;
      var body, tail := s[HEADER_LEN..next], Decoded(s[next..]);
      var last := Decoded(tail.rest + more);
      assert (s + more)[next..] == s[next..] + more;
      assert (s + more)[HEADER_LEN..next] == body;
      DecodedResumes(s[next..], more);
      assert [body] + (tail.messages + last.messages) == ([body] + tail.messages) + last.messages;
  }

  /**
   A stream is rejected at once exactly if more than its header is there and the length
   that it announces is negative or above 65536.
   */
  lemma RejectedAtOnceIff(s: seq<byte>)
    ensures Decoded(s) == Outcome([], s, true) <==>
      |s| > 4 && (Decode(s[..4]) < 0 || Decode(s[..4]) > 65536)
  {
    hide Next, Decode, Decoded;
    DecodedTurn(s);
    NextByHeader(s);
  }

  lemma NextByHeader(s: seq<byte>)
    ensures Next(s).Invalid? <==> |s| > 4 && (Decode(s[..4]) < 0 || Decode(s[..4]) > 65536)
  {
    hide Decode;
  }

  /** Each chunk is appended to the buffer and onMessage is called after it. */
  function Fed(buffered: seq<byte>, chunks: seq<seq<byte>>): Outcome
    decreases |chunks|
  {
    if chunks == [] then Outcome([], buffered, false) else
      var first := Decoded(buffered + chunks[0]);
      Then(first, Fed(first.rest, chunks[1..]))
  }

  lemma {:induction false} FedIsOneCall(buffered: seq<byte>, chunks: seq<seq<byte>>)
    requires chunks != []
    ensures Fed(buffered, chunks) == Decoded(buffered + Joined(chunks))
    decreases |chunks|
  {
    var first := Decoded(buffered + chunks[0]);
    if |chunks| == 1 {
      assert chunks[0] + Joined(chunks[1..]) == chunks[0];
      assert first.messages + [] == first.messages;
    } else {
      DecodedResumes(buffered + chunks[0], Joined(chunks[1..]));
      FedIsOneCall(first.rest, chunks[1..]);
      assert buffered + Joined(chunks) == buffered + chunks[0] + Joined(chunks[1..]);
    }
  }

  /** However a stream is cut, messages, leftover bytes and verdict are the same. */
  lemma ChunkIndependence(chunks: seq<seq<byte>>, others: seq<seq<byte>>)
    requires Joined(chunks) == Joined(others)
    ensures Fed([], chunks) == Fed([], others) == Decoded(Joined(chunks))
  {
    assert forall s: seq<byte> :: [] + s == s;
    if chunks != [] { FedIsOneCall([], chunks); }
    if others != [] { FedIsOneCall([], others); }
  }

  // -------------------------------------------------- decoding undoes framing

  predicate Sendable(m: seq<byte>) {
    |m| <= 65536
  }

  function Frame(m: seq<byte>): (f: seq<byte>)
    requires Sendable(m)
    ensures |f| == HEADER_LEN + |m|
  {
    FourBytes();
    Encode(HEADER_LEN, |m|) + m
  }

  function Frames(ms: seq<seq<byte>>): seq<byte>
    requires forall m :: m in ms ==> Sendable(m)
  {
    if ms == [] then [] else Frame(ms[0]) + Frames(ms[1..])
  }

  /** The one case in which a complete frame stays behind: a last, empty message. */
  predicate EndsEmpty(ms: seq<seq<byte>>) {
    ms != [] && ms[|ms| - 1] == []
  }

  function Delivered(ms: seq<seq<byte>>): Outcome
  {
    FourBytes();
    if EndsEmpty(ms) then Outcome(ms[..|ms| - 1], Encode(HEADER_LEN, 0), false) else Outcome(ms, [], false)
  }

  lemma NextOfFrame(m: seq<byte>, more: seq<byte>)
    requires Sendable(m)
    ensures Next(Frame(m) + more) == if m + more == [] then Wait else Take(|m|)
    ensures (Frame(m) + more)[HEADER_LEN..HEADER_LEN + |m|] == m
    ensures (Frame(m) + more)[HEADER_LEN + |m|..] == more
    ensures m == [] ==> Frame(m) == Encode(HEADER_LEN, 0)
  {
    FourBytes();
    DecodeOfEncode(HEADER_LEN, |m|);
    assert (Frame(m) + more)[..HEADER_LEN] == Encode(HEADER_LEN, |m|);
  }

  lemma {:induction false} DecodedOfFrames(ms: seq<seq<byte>>)
    requires forall m :: m in ms ==> Sendable(m)
    ensures Decoded(Frames(ms)) == Delivered(ms)
  {
    hide Next, Encode, Decoded;
    DecodedTurn(Frames(ms));
    if ms == [] {
      NextOfShort([]);
    } else {
      var m, more := ms[0], Frames(ms[1..]);
      NextOfFrame(m, more);
      if m + more == [] {
        assert |m + more| == 0;
        assert ms[1..] == [];
        assert Frames(ms) == Frame(m);
        assert ms[..|ms| - 1] == [];
      } else {
        DecodedOfFrames(ms[1..]);
        assert [m] + ms[1..] == ms;
        if |ms| == 1 {
          assert more == [];
        } else if EndsEmpty(ms) {
          assert ms[..|ms| - 1] == [m] + ms[1..][..|ms| - 2];
        }
      }
    }
  }

  /** Everything sent is delivered at once exactly when the last message is not empty. */
  lemma AllDeliveredIff(ms: seq<seq<byte>>)
    requires forall m :: m in ms ==> Sendable(m)
    ensures Decoded(Frames(ms)) == Outcome(ms, [], false) <==> !EndsEmpty(ms)
  {
    DecodedOfFrames(ms);
  }

  /** An empty message that stays behind is delivered as soon as one more byte arrives. */
  lemma TrailingEmptyArrivesLater(ms: seq<seq<byte>>, more: seq<byte>)
    requires forall m :: m in ms ==> Sendable(m)
    requires more != []
    ensures Decoded(Frames(ms) + more) == Then(Outcome(ms, [], false), Decoded(more))
  {
    hide Next, Decoded, Encode;
    DecodedOfFrames(ms);
    DecodedResumes(Frames(ms), more);
    if EndsEmpty(ms) {
      EmptyFrameThen(more);
      assert ms[..|ms| - 1] + ([[]] + Decoded(more).messages) == ms + Decoded(more).messages;
    } else {
      assert [] + more == more;
    }
  }

  lemma EmptyFrameThen(more: seq<byte>)
    requires more != []
    ensures FitsSigned(HEADER_LEN, 0)
    ensures Decoded(Encode(HEADER_LEN, 0) + more) == Then(Outcome([[]], [], false), Decoded(more))
  {
    hide Next;
    NextOfFrame([], more);
    assert Frame([]) + more == Encode(HEADER_LEN, 0) + more;
  }

  /** Conversely nothing is invented: framing what was delivered gives back the bytes consumed. */
  lemma {:induction false} FramesOfDecoded(s: seq<byte>)
    ensures forall m :: m in Decoded(s).messages ==> Sendable(m)
    ensures Frames(Decoded(s).messages) + Decoded(s).rest == s
    decreases |s|
  {
    hide Next, Frame, Decoded;
    DecodedTurn(s);
    if Next(s).Take? {
      var next := HEADER_LEN + Next(s).bodyLen;
      FramesOfDecoded(s[next..]);
      FrameOfTaken(s);
      assert Decoded(s).messages[1..] == Decoded(s[next..]).messages;
      assert s == s[..next] + s[next..];
    }
  }

  lemma FrameOfTaken(s: seq<byte>)
    requires Next(s).Take?
    ensures Frame(s[HEADER_LEN..HEADER_LEN + Next(s).bodyLen]) == s[..HEADER_LEN + Next(s).bodyLen]
  {
    EncodeOfDecode(s[..HEADER_LEN]);
  }
}
