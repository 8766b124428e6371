/** ProtobufCodec::onMessage on a whole input buffer, and when it ever returns. */
module ProtobufStream {
  import opened Bytes
  import opened Buffers
  import opened Basics
  import opened ProtobufCodec
  import A = Adler32
  import B = BufferSpec

  /** What one turn of the loop decides. Spin: nothing is consumed and the loop goes round again. */
  datatype Step = Wait | Reject | Spin | Take(bodyLen: nat, message: Message)

  function Next(registered: set<seq<byte>>, s: seq<byte>): (step: Step)
    ensures step.Take? ==> 0 < HEADER_LEN + step.bodyLen <= |s|
  {
    if |s| < MIN_MESSAGE_LEN + HEADER_LEN then Wait else
      var bodyLen := Decode(s[..HEADER_LEN]);
      if bodyLen > MAX_MESSAGE_LEN || bodyLen < MIN_MESSAGE_LEN then Reject
      else if |s| >= bodyLen + HEADER_LEN then
        match Parse(registered, s[HEADER_LEN..HEADER_LEN + bodyLen])
        case Some(message) => Take(bodyLen, message)
        case None => Spin
      else Spin
  }

  datatype Verdict = Waits | Rejects | Spins
  datatype Outcome = Outcome(messages: seq<Message>, rest: seq<byte>, verdict: Verdict)

  function Preceded(m: Message, o: Outcome): Outcome {
    o.(messages := [m] + o.messages)
  }

  /** What one call of onMessage delivers and leaves behind, and how it ends if it ends. */
  function Drained(registered: set<seq<byte>>, s: seq<byte>): Outcome
    decreases |s|
  {
    match Next(registered, s)
    case Wait => Outcome([], s, Waits)
    case Reject => Outcome([], s, Rejects)
    case Spin => Outcome([], s, Spins)
    case Take(bodyLen, message) => Preceded(message, Drained(registered, s[HEADER_LEN + bodyLen..]))
  }

  /** The definition of Drained, unrolled once. */
  lemma DrainedTurn(registered: set<seq<byte>>, s: seq<byte>)
    ensures Next(registered, s).Wait? ==> Drained(registered, s) == Outcome([], s, Waits)
    ensures Next(registered, s).Reject? ==> Drained(registered, s) == Outcome([], s, Rejects)
    ensures Next(registered, s).Spin? ==> Drained(registered, s) == Outcome([], s, Spins)
    ensures Next(registered, s).Take? ==>
      var step := Next(registered, s);
      Drained(registered, s) == Preceded(step.message, Drained(registered, s[HEADER_LEN + step.bodyLen..]))
  {
    hide Next;
  }

  // ------------------------------------------------------------ the loop itself

  datatype Loop =
    | Running(buffer: seq<byte>, delivered: seq<Message>)
    | Returned(buffer: seq<byte>, delivered: seq<Message>, shutdown: bool)

  function Turn(registered: set<seq<byte>>, l: Loop): Loop {
    if l.Returned? then l else
      match Next(registered, l.buffer)
      case Wait => Returned(l.buffer, l.delivered, false)
      case Reject => Returned(l.buffer, l.delivered, true)
      case Spin => l
      case Take(bodyLen, message) => Running(l.buffer[HEADER_LEN + bodyLen..], l.delivered + [message])
  }

  function Turns(registered: set<seq<byte>>, l: Loop, n: nat): Loop
    decreases n
  {
    if n == 0 then l else Turns(registered, Turn(registered, l), n - 1)
  }

  lemma {:induction false} ReturnedStays(registered: set<seq<byte>>, l: Loop, n: nat)
    requires l.Returned?
    ensures Turns(registered, l, n) == l
  {
    if n > 0 {
      ReturnedStays(registered, l, n - 1);
    }
  }

  /** A buffer that Drained calls spinning keeps the loop running for ever. */
  lemma {:induction false} SpinsForever(registered: set<seq<byte>>, l: Loop, n: nat)
    requires l.Running? && Drained(registered, l.buffer).verdict.Spins?
    ensures Turns(registered, l, n).Running?
    decreases n
  {
    hide Next, Drained;
    DrainedTurn(registered, l.buffer);
    if n > 0 {
      SpinsForever(registered, Turn(registered, l), n - 1);
    }
  }

  /** Every other buffer is left after a turn for each message and one to notice the end. */
  lemma {:induction false} Returns(registered: set<seq<byte>>, l: Loop) returns (n: nat)
    requires l.Running? && !Drained(registered, l.buffer).verdict.Spins?
    ensures var o := Drained(registered, l.buffer);
      Turns(registered, l, n) == Returned(o.rest, l.delivered + o.messages, o.verdict.Rejects?)
    decreases |l.buffer|
  {
    hide Next, Drained;
    DrainedTurn(registered, l.buffer);
    var after := Turn(registered, l);
    var o := Drained(registered, l.buffer);
    if after.Returned? {
      n := 1;
      assert Turns(registered, l, 1) == Turns(registered, after, 0);
      assert l.delivered + [] == l.delivered;
    } else {
      var tail := Drained(registered, after.buffer);
      var m := Next(registered, l.buffer).message;
      n := Returns(registered, after);
      assert (l.delivered + [m]) + tail.messages == l.delivered + ([m] + tail.messages);
      n := n + 1;
    }
  }

  ghost predicate Terminates(registered: set<seq<byte>>, s: seq<byte>) {
    exists n: nat :: Turns(registered, Running(s, []), n).Returned?
  }

  lemma TerminatesIffNotSpinning(registered: set<seq<byte>>, s: seq<byte>)
    ensures Terminates(registered, s) <==> !Drained(registered, s).verdict.Spins?
  {
    hide Next, Drained, Turns;
    if Drained(registered, s).verdict.Spins? {
      forall n: nat ensures !Turns(registered, Running(s, []), n).Returned? {
        SpinsForever(registered, Running(s, []), n);
      }
    } else {
      var n := Returns(registered, Running(s, []));
    }
  }

  /** The messages delivered so far and the outcome on what is left make up the whole outcome. */
  ghost predicate SoFar(whole: Outcome, delivered: seq<Message>, o: Outcome) {
    whole == o.(messages := delivered + o.messages)
  }

  lemma NothingSoFar(o: Outcome)
    ensures SoFar(o, [], o)
  {
    assert [] + o.messages == o.messages;
  }

  lemma OneMoreSoFar(whole: Outcome, delivered: seq<Message>, m: Message, o: Outcome)
    requires SoFar(whole, delivered, Preceded(m, o))
    ensures SoFar(whole, delivered + [m], o)
  {
    assert delivered + ([m] + o.messages) == delivered + [m] + o.messages;
  }

  lemma AllSoFar(whole: Outcome, delivered: seq<Message>, o: Outcome)
    requires SoFar(whole, delivered, o) && o.messages == []
    ensures whole == o.(messages := delivered)
  {
    assert delivered + [] == delivered;
  }

  /** onMessage returns on the buffers on which it can, with this effect. */
  method OnMessage(registered: set<seq<byte>>, buf: Buffer) returns (delivered: seq<Message>, shutdown: bool)
    requires buf.Valid() && !Drained(registered, buf.Contents()).verdict.Spins?
    modifies buf
    ensures buf.Valid() && buf.buffer == old(buf.buffer)
    ensures B.OnlyRetrieved(old(buf.View()), buf.View())
    ensures var o := Drained(registered, old(buf.Contents()));
      delivered == o.messages && buf.Contents() == o.rest && shutdown == o.verdict.Rejects?
  {
    hide Next, Drained, Parse, SoFar, Preceded, B.Retrieve, B.OnlyRetrieved;
    B.NothingRetrieved(buf.View());
    ghost var was := buf.View();
    ghost var whole := Drained(registered, buf.Contents());
    delivered, shutdown := [], false;
    NothingSoFar(whole);
    while buf.ReadableBytes() >= MIN_MESSAGE_LEN + HEADER_LEN
      invariant buf.Valid() && buf.buffer == old(buf.buffer)
      invariant B.OnlyRetrieved(was, buf.View())
      invariant SoFar(whole, delivered, Drained(registered, buf.Contents()))
      invariant !Drained(registered, buf.Contents()).verdict.Spins?
      decreases buf.ReadableBytes()
    {
      DrainedTurn(registered, buf.Contents());
      ghost var now := buf.Contents();
      var bodyLen := PeekHeader(registered, buf);
      if bodyLen > MAX_MESSAGE_LEN || bodyLen < MIN_MESSAGE_LEN {
        AllSoFar(whole, delivered, Drained(registered, now));
        shutdown := true;
        return;
      } else if buf.ReadableBytes() >= bodyLen + HEADER_LEN {
        B.RetrievedFurther(was, buf.View(), bodyLen + HEADER_LEN);
        var message := TakeFront(registered, buf, bodyLen);
        if message.Some? {
          ghost var tail := Drained(registered, now[HEADER_LEN + bodyLen..]);
          PrecededKeepsVerdict(message.value, tail);
          OneMoreSoFar(whole, delivered, message.value, tail);
          delivered := delivered + [message.value];
        } else {
          assert false;
        }
      } else {
        assert false;
      }
    }
    DrainedTurn(registered, buf.Contents());
    NextOfShort(registered, buf.Contents());
    AllSoFar(whole, delivered, Drained(registered, buf.Contents()));
  }

  lemma PrecededKeepsVerdict(m: Message, o: Outcome)
    ensures Preceded(m, o).verdict == o.verdict
  {
  }

  /** Parses the frame in front; retrieves it only if that succeeds. */
  method TakeFront(registered: set<seq<byte>>, buf: Buffer, bodyLen: nat) returns (message: Option<Message>)
    requires buf.Valid() && MIN_MESSAGE_LEN <= bodyLen && bodyLen + HEADER_LEN <= buf.ReadableBytes()
    modifies buf
    ensures buf.Valid() && buf.buffer == old(buf.buffer)
    ensures message == Parse(registered, old(buf.Contents()[HEADER_LEN..HEADER_LEN + bodyLen]))
    ensures buf.Contents() == if message.Some? then old(buf.Contents()[HEADER_LEN + bodyLen..]) else old(buf.Contents())
    ensures buf.View() == if message.Some? then B.Retrieve(old(buf.View()), bodyLen + HEADER_LEN) else old(buf.View())
  {
    hide Parse;
    SliceOfSlice(buf.buffer[..], buf.readerIndex, buf.writerIndex, HEADER_LEN, HEADER_LEN + bodyLen);
    message := Parse(registered, buf.buffer[buf.readerIndex + HEADER_LEN..buf.readerIndex + HEADER_LEN + bodyLen]);
    if message.Some? {
      buf.Retrieve(bodyLen + HEADER_LEN);
    }
  }

  method PeekHeader(registered: set<seq<byte>>, buf: Buffer) returns (bodyLen: int)
    requires buf.Valid() && buf.ReadableBytes() >= MIN_MESSAGE_LEN + HEADER_LEN
    ensures bodyLen == Decode(buf.Contents()[..HEADER_LEN])
    ensures NextIs(registered, buf.Contents(), bodyLen)
  {
    bodyLen := buf.PeekInt(HEADER_LEN);
    DecodeOfEncode(HEADER_LEN, bodyLen);
  }

  /** Next for a buffer long enough, in terms of its header. */
  ghost predicate NextIs(registered: set<seq<byte>>, s: seq<byte>, bodyLen: int) {
    && (bodyLen > MAX_MESSAGE_LEN || bodyLen < MIN_MESSAGE_LEN ==> Next(registered, s) == Reject)
    && (MIN_MESSAGE_LEN <= bodyLen <= MAX_MESSAGE_LEN && |s| < bodyLen + HEADER_LEN ==> Next(registered, s) == Spin)
    && (MIN_MESSAGE_LEN <= bodyLen <= MAX_MESSAGE_LEN && |s| >= bodyLen + HEADER_LEN ==>
          var parsed := Parse(registered, s[HEADER_LEN..HEADER_LEN + bodyLen]);
          Next(registered, s) == if parsed.Some? then Take(bodyLen, parsed.value) else Spin)
  }

  lemma NextOfShort(registered: set<seq<byte>>, s: seq<byte>)
    ensures |s| < MIN_MESSAGE_LEN + HEADER_LEN ==> Next(registered, s) == Wait
  {
  }

  // ------------------------------------------------- buffers of whole frames

  /** A frame body that onMessage consumes. */
  predicate Accepted(registered: set<seq<byte>>, body: seq<byte>) {
    MIN_MESSAGE_LEN <= |body| <= MAX_MESSAGE_LEN && Parse(registered, body).Some?
  }

  predicate AllAccepted(registered: set<seq<byte>>, bodies: seq<seq<byte>>) {
    forall i :: 0 <= i < |bodies| ==> Accepted(registered, bodies[i])
  }

  /** Too short to look at, or a length out of range. */
  predicate Ending(s: seq<byte>) {
    |s| < MIN_MESSAGE_LEN + HEADER_LEN ||
    !(MIN_MESSAGE_LEN <= Decode(s[..HEADER_LEN]) <= MAX_MESSAGE_LEN)
  }

  function Frames(bodies: seq<seq<byte>>): seq<byte>
    requires forall i :: 0 <= i < |bodies| ==> |bodies[i]| <= MAX_MESSAGE_LEN
  {
    if bodies == [] then [] else FrameOf(bodies[0]) + Frames(bodies[1..])
  }

  function Parsed(registered: set<seq<byte>>, bodies: seq<seq<byte>>): seq<Message>
    requires AllAccepted(registered, bodies)
  {
    if bodies == [] then [] else [Parse(registered, bodies[0]).value] + Parsed(registered, bodies[1..])
  }

  lemma NextOfFrame(registered: set<seq<byte>>, body: seq<byte>, more: seq<byte>)
    requires Accepted(registered, body)
    ensures Next(registered, FrameOf(body) + more) == Take(|body|, Parse(registered, body).value)
    ensures (FrameOf(body) + more)[HEADER_LEN + |body|..] == more
  {
    hide Parse;
    FourBytes();
    DecodeOfEncode(HEADER_LEN, |body|);
    var s := FrameOf(body) + more;
    assert s[..HEADER_LEN] == Encode(HEADER_LEN, |body|);
    assert s[HEADER_LEN..HEADER_LEN + |body|] == body;
  }

  /** Whole acceptable frames are delivered in order, whatever ends the buffer. */
  lemma {:induction false} DrainedOfFrames(registered: set<seq<byte>>, bodies: seq<seq<byte>>, tail: seq<byte>)
    requires AllAccepted(registered, bodies)
    ensures var o := Drained(registered, tail);
      Drained(registered, Frames(bodies) + tail) == o.(messages := Parsed(registered, bodies) + o.messages)
  {
    hide Next, Drained, Parse, FrameOf;
    if bodies == [] {
      assert [] + tail == tail;
      assert [] + Drained(registered, tail).messages == Drained(registered, tail).messages;
    } else {
      var more := Frames(bodies[1..]) + tail;
      DrainedOfFrames(registered, bodies[1..], tail);
      NextOfFrame(registered, bodies[0], more);
      assert Frames(bodies) + tail == FrameOf(bodies[0]) + more;
      DrainedTurn(registered, FrameOf(bodies[0]) + more);
      var first, others := Parse(registered, bodies[0]).value, Parsed(registered, bodies[1..]);
      var last := Drained(registered, tail).messages;
      assert [first] + (others + last) == [first] + others + last;
    }
  }

  lemma EndingStops(registered: set<seq<byte>>, s: seq<byte>)
    requires Ending(s)
    ensures Drained(registered, s).messages == [] && Drained(registered, s).rest == s
    ensures Drained(registered, s).verdict == if |s| < MIN_MESSAGE_LEN + HEADER_LEN then Waits else Rejects
  {
    hide Parse;
  }

  /** The frames a buffer starts with, and what follows them. */
  lemma {:induction false} SplitIntoFrames(registered: set<seq<byte>>, s: seq<byte>)
    returns (bodies: seq<seq<byte>>, tail: seq<byte>)
    requires !Drained(registered, s).verdict.Spins?
    ensures AllAccepted(registered, bodies) && s == Frames(bodies) + tail && Ending(tail)
    decreases |s|
  {
    hide Next, Drained, Parse, FrameOf, Frames, Ending;
    DrainedTurn(registered, s);
    if Next(registered, s).Take? {
      var bodyLen := Next(registered, s).bodyLen;
      var body := s[HEADER_LEN..HEADER_LEN + bodyLen];
      FrontIsFrame(registered, s);
      var others;
      others, tail := SplitIntoFrames(registered, s[HEADER_LEN + bodyLen..]);
      bodies := [body] + others;
      FramesOfCons(body, others, tail);
      assert s == s[..HEADER_LEN + bodyLen] + s[HEADER_LEN + bodyLen..];
    } else {
      bodies, tail := [], s;
      StopsAtEnding(registered, s);
    }
  }

  lemma FramesOfCons(body: seq<byte>, others: seq<seq<byte>>, tail: seq<byte>)
    requires |body| <= MAX_MESSAGE_LEN
    requires forall i :: 0 <= i < |others| ==> |others[i]| <= MAX_MESSAGE_LEN
    ensures Frames([body] + others) + tail == FrameOf(body) + (Frames(others) + tail)
  {
    hide FrameOf;
    assert ([body] + others)[1..] == others;
  }

  lemma StopsAtEnding(registered: set<seq<byte>>, s: seq<byte>)
    requires !Next(registered, s).Take? && !Next(registered, s).Spin?
    ensures Ending(s) && Frames([]) + s == s
  {
    hide Parse;
  }

  lemma FrontIsFrame(registered: set<seq<byte>>, s: seq<byte>)
    requires Next(registered, s).Take?
    ensures var n := Next(registered, s).bodyLen;
      Accepted(registered, s[HEADER_LEN..HEADER_LEN + n]) &&
      FrameOf(s[HEADER_LEN..HEADER_LEN + n]) == s[..HEADER_LEN + n]
  {
    hide Parse;
    EncodeOfDecode(s[..HEADER_LEN]);
    var n := Next(registered, s).bodyLen;
    assert s[..HEADER_LEN] + s[HEADER_LEN..HEADER_LEN + n] == s[..HEADER_LEN + n];
  }

  ghost predicate WholeFramesThenEnding(registered: set<seq<byte>>, s: seq<byte>) {
    exists bodies: seq<seq<byte>>, tail: seq<byte> ::
      AllAccepted(registered, bodies) && s == Frames(bodies) + tail && Ending(tail)
  }

  /**
   onMessage returns exactly when the buffer holds whole, parsable frames followed by
   fewer than fourteen bytes or by a length out of range. An incomplete frame, or one
   whose checksum or type name does not fit, keeps the loop running for ever.
   */
  lemma TerminatesIffWholeFrames(registered: set<seq<byte>>, s: seq<byte>)
    ensures Terminates(registered, s) <==> WholeFramesThenEnding(registered, s)
  {
    hide Terminates, Drained, Frames, Ending, Parse;
    TerminatesIffNotSpinning(registered, s);
    if !Drained(registered, s).verdict.Spins? {
      var bodies, tail := SplitIntoFrames(registered, s);
    }
    if WholeFramesThenEnding(registered, s) {
      var bodies: seq<seq<byte>>, tail: seq<byte> :|
        AllAccepted(registered, bodies) && s == Frames(bodies) + tail && Ending(tail);
      DrainedOfFrames(registered, bodies, tail);
      EndingStops(registered, tail);
    }
  }

  // -------------------------------------------------- decoding undoes framing

  /** What ProtobufCodec::send may be given so that the other side delivers it. */
  predicate Deliverable(registered: set<seq<byte>>, m: Message) {
    m.name != [] && m.name in registered && 9 + |m.name| + |m.payload| <= 64 * 1024 * 1024
  }

  predicate AllDeliverable(registered: set<seq<byte>>, ms: seq<Message>) {
    forall i {:trigger ms[i]} :: 0 <= i < |ms| ==> Deliverable(registered, ms[i])
  }

  function Bodies(ms: seq<Message>): (bodies: seq<seq<byte>>)
    requires forall i :: 0 <= i < |ms| ==> Representable(ms[i])
    ensures |bodies| == |ms|
    ensures forall i :: 0 <= i < |ms| ==> bodies[i] == Body(ms[i])
  {
    if ms == [] then [] else [Body(ms[0])] + Bodies(ms[1..])
  }

  lemma BodyAccepted(registered: set<seq<byte>>, m: Message)
    requires Deliverable(registered, m)
    ensures Accepted(registered, Body(m)) && Parse(registered, Body(m)) == Some(m)
  {
    hide Parse;
    ParseOfBody(registered, m);
  }

  lemma {:induction false} ParsedOfBodies(registered: set<seq<byte>>, ms: seq<Message>)
    requires AllDeliverable(registered, ms)
    ensures AllAccepted(registered, Bodies(ms))
    ensures Parsed(registered, Bodies(ms)) == ms
  {
    hide Body, Parse;
    if ms != [] {
      BodyAccepted(registered, ms[0]);
      ParsedOfBodies(registered, ms[1..]);
      assert Bodies(ms)[1..] == Bodies(ms[1..]);
      assert [ms[0]] + ms[1..] == ms;
    }
  }

  /** Any number of sent frames, back to back, come out as the messages sent. */
  lemma DrainedOfSent(registered: set<seq<byte>>, ms: seq<Message>)
    requires AllDeliverable(registered, ms)
    ensures AllAccepted(registered, Bodies(ms))
    ensures Drained(registered, Frames(Bodies(ms))) == Outcome(ms, [], Waits)
  {
    hide Drained, Body, Parse, Frames;
    ParsedOfBodies(registered, ms);
    DrainedOfFrames(registered, Bodies(ms), []);
    EndingStops(registered, []);
    assert Frames(Bodies(ms)) + [] == Frames(Bodies(ms));
    assert ms + [] == ms;
  }

  // ------------------------------------------------------------ damaged frames

  /** A frame body long enough to be looked at and not too long to be taken. */
  predicate InRange(body: seq<byte>) {
    10 <= |body| <= 64 * 1024 * 1024
  }

  lemma NextOfUnparsable(registered: set<seq<byte>>, body: seq<byte>, more: seq<byte>)
    requires InRange(body) && Parse(registered, body) == None
    ensures Next(registered, FrameOf(body) + more) == Spin
  {
    hide Parse;
    FourBytes();
    DecodeOfEncode(HEADER_LEN, |body|);
    var s := FrameOf(body) + more;
    assert s[..HEADER_LEN] == Encode(HEADER_LEN, |body|);
    assert s[HEADER_LEN..HEADER_LEN + |body|] == body;
  }

  /** onMessage gets past a whole frame exactly if it parses. */
  lemma TerminatesPastFrameIff(registered: set<seq<byte>>, body: seq<byte>, more: seq<byte>)
    requires InRange(body)
    ensures Terminates(registered, FrameOf(body) + more) <==>
      Parse(registered, body).Some? && Terminates(registered, more)
  {
    hide Terminates, Drained, Next, Parse, FrameOf;
    var s := FrameOf(body) + more;
    TerminatesIffNotSpinning(registered, s);
    TerminatesIffNotSpinning(registered, more);
    DrainedTurn(registered, s);
    if Parse(registered, body).Some? {
      NextOfFrame(registered, body, more);
    } else {
      NextOfUnparsable(registered, body, more);
    }
  }

  /**
   readHeader and readBody hand over one frame at a time; on that frame onMessage returns
   exactly if its length is out of range or its body parses.
   */
  lemma TerminatesOnFrameIff(registered: set<seq<byte>>, body: seq<byte>)
    requires |body| < 0x8000_0000
    ensures Terminates(registered, FrameOf(body)) <==> !InRange(body) || Parse(registered, body).Some?
  {
    hide Terminates, Drained, Parse;
    FourBytes();
    TerminatesIffNotSpinning(registered, FrameOf(body));
    if InRange(body) {
      assert FrameOf(body) + [] == FrameOf(body);
      TerminatesPastFrameIff(registered, body, []);
      EndingStops(registered, []);
      TerminatesIffNotSpinning(registered, []);
    } else {
      DecodeOfEncode(HEADER_LEN, |body|);
      assert FrameOf(body)[..HEADER_LEN] == Encode(HEADER_LEN, |body|);
      EndingStops(registered, FrameOf(body));
    }
  }

  /** One damaged byte in the body of a frame keeps onMessage running for ever. */
  lemma ReplacedByteSpins(registered: set<seq<byte>>, m: Message, i: nat, v: byte, more: seq<byte>)
    requires Deliverable(registered, m) && i < |Body(m)| && v != Body(m)[i]
    ensures !Terminates(registered, FrameOf(Body(m)[i := v]) + more)
  {
    hide Terminates, Parse, Body, FrameOf;
    ReplacedByteDetected(registered, m, i, v);
    TerminatesPastFrameIff(registered, Body(m)[i := v], more);
  }

  /** So do two checked bytes exchanged within 65520 bytes. */
  lemma SwappedBytesSpin(registered: set<seq<byte>>, m: Message, i: nat, j: nat, more: seq<byte>)
    requires Deliverable(registered, m) && i < j < |Checked(m)| && Body(m)[i] != Body(m)[j]
    requires j - i < A.MODULUS
    ensures !Terminates(registered, FrameOf(A.Swapped(Body(m), i, j)) + more)
  {
    hide Terminates, Parse, Checked, FrameOf, A.Swapped;
    SwappedBytesDetected(registered, m, i, j);
    TerminatesPastFrameIff(registered, A.Swapped(Body(m), i, j), more);
  }

  /** An undamaged frame lets onMessage go on exactly if its type name is known and not empty. */
  lemma SentFrameTerminatesIff(registered: set<seq<byte>>, m: Message)
    requires Representable(m) && InRange(Body(m))
    ensures Terminates(registered, Frame(m)) <==> Deliverable(registered, m)
  {
    hide Terminates, Parse, Checked, Trailer, FrameOf;
    ParseOfBody(registered, m);
    TerminatesOnFrameIff(registered, Body(m));
  }
}
