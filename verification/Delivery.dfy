/**
 End-to-end delivery: ProtobufCodec::send over a TcpConnection on one side,
 readHeader/readBody into ProtobufCodec::onMessage on the other.
 */
module Delivery {
  import opened Bytes
  import opened ConnectionStates
  import Out = SendSide
  import In = ReadSide
  import P = ProtobufCodec
  import PS = ProtobufStream

  /** sent and delivered are history: messages accepted for sending, and callbacks fired. */
  datatype System = System(tx: Out.Sender, sent: seq<P.Message>, rx: In.Reader, delivered: seq<P.Message>)

  const INITIAL: System := System(Out.INITIAL, [], In.ReadHeader(In.INITIAL), [])

  datatype Event =
    | Sends(m: P.Message)              // on the connection's own loop
    | SendsElsewhere(m: P.Message)     // from another thread: its test; Transport posts it to the loop
    | RunsSend(m: P.Message)           // the loop runs a posted send
    | Transport(e: Out.Event)          // anything else on the sending side
    | HeaderArrives                    // the receiver's async_read completes
    | BodyArrives
    | ReadFails

  function Available(s: System): seq<byte>
    requires s.rx.stream <= s.tx.wire
  {
    s.tx.wire[|s.rx.stream|..]
  }

  predicate Possible(registered: set<seq<byte>>, s: System, e: Event)
    requires s.rx.stream <= s.tx.wire
  {
    match e
    case Sends(m) => PS.Deliverable(registered, m)
    case SendsElsewhere(m) => PS.Deliverable(registered, m)
    case RunsSend(m) => PS.Deliverable(registered, m) && s.tx.tasks != [] && s.tx.tasks[0] == Out.SendTask(P.Frame(m))
    case Transport(e) =>
      && !e.Sends? && !e.SendsElsewhere?
      && (e.Runs? ==> s.tx.tasks != [] && s.tx.tasks[0] == Out.ShutdownTask)
      && Out.Possible(s.tx, e)
    case HeaderArrives => s.rx.pending == In.HeaderRead && In.HEADER_LEN <= |Available(s)|
    case BodyArrives => s.rx.pending.BodyRead? && s.rx.pending.len <= |Available(s)|
    case ReadFails => s.rx.pending != In.Idle
  }

  /** The event as the sending side sees it. */
  function Sending(s: System, e: Event): Out.Event
    requires e.Sends? || e.SendsElsewhere? || e.RunsSend? || e.Transport?
    requires !e.Transport? ==> P.Representable(e.m)
  {
    match e
    case Sends(m) => Out.Sends(P.Frame(m))
    case SendsElsewhere(m) => Out.SendsElsewhere(P.Frame(m))
    case RunsSend(_) => Out.Runs
    case Transport(e) => e
  }

  /** The event as the receiving side sees it, with what onMessage takes from the buffer. */
  function Receiving(registered: set<seq<byte>>, s: System, e: Event): In.Event
    requires s.rx.stream <= s.tx.wire && Possible(registered, s, e)
    requires e.HeaderArrives? || e.BodyArrives?
  {
    match e
    case HeaderArrives => In.Header(Available(s)[..In.HEADER_LEN])
    case BodyArrives =>
      var data := Available(s)[..s.rx.pending.len];
      var taken := |Shown(registered, s)| - |PS.Drained(registered, Shown(registered, s)).rest|;
      In.Body(data, if taken >= 0 then taken else 0)
  }

  /** What the message callback finds in the buffer. */
  function Shown(registered: set<seq<byte>>, s: System): seq<byte>
    requires s.rx.stream <= s.tx.wire && Possible(registered, s, BodyArrives)
  {
    (if s.rx.store.Valid() then s.rx.store.Contents() else []) + Available(s)[..s.rx.pending.len]
  }

  /** No assertion fails, every read lands inside the array, and onMessage returns. */
  predicate Good(registered: set<seq<byte>>, s: System, e: Event)
    requires s.rx.stream <= s.tx.wire && Possible(registered, s, e)
  {
    match e
    case HeaderArrives => In.Sane(s.rx, Receiving(registered, s, e))
    case BodyArrives =>
      && In.Sane(s.rx, Receiving(registered, s, e))
      && !PS.Drained(registered, Shown(registered, s)).verdict.Spins?
    case ReadFails => true
    case _ => Out.Asserted(s.tx, Sending(s, e))
  }

  function Apply(registered: set<seq<byte>>, s: System, e: Event): System
    requires s.rx.stream <= s.tx.wire && Possible(registered, s, e) && Good(registered, s, e)
  {
    match e
    case HeaderArrives => s.(rx := In.Apply(s.rx, Receiving(registered, s, e)))
    case BodyArrives =>
      s.(rx := In.Apply(s.rx, Receiving(registered, s, e)),
         delivered := s.delivered + PS.Drained(registered, Shown(registered, s)).messages)
    case ReadFails => s.(rx := s.rx.(pending := In.Idle))
    case _ =>
      s.(tx := Out.Apply(s.tx, Sending(s, e)), sent := s.sent + Accepting(s, e))
  }

  /** The message whose frame sendInThisThread appends at this event, if any. */
  function Accepting(s: System, e: Event): seq<P.Message> {
    match e
    case Sends(m) => if s.tx.state == Connected then [m] else []
    case RunsSend(m) => if s.tx.state != Disconnected then [m] else []
    case _ => []
  }

  // ------------------------------------------------------- streams of messages

  predicate Representables(ms: seq<P.Message>) {
    forall i {:trigger ms[i]} :: 0 <= i < |ms| ==> P.Representable(ms[i])
  }

  function Stream(ms: seq<P.Message>): seq<byte>
    requires Representables(ms)
  {
    if ms == [] then [] else P.Frame(ms[0]) + Stream(ms[1..])
  }

  lemma {:induction false} StreamOfConcat(ms: seq<P.Message>, ns: seq<P.Message>)
    requires Representables(ms) && Representables(ns)
    ensures Representables(ms + ns) && Stream(ms + ns) == Stream(ms) + Stream(ns)
  {
    hide P.Frame, P.Representable;
    if ms == [] {
      assert ms + ns == ns;
      assert [] + Stream(ns) == Stream(ns);
    } else {
      StreamOfConcat(ms[1..], ns);
      assert (ms + ns)[1..] == ms[1..] + ns;
      assert P.Frame(ms[0]) + (Stream(ms[1..]) + Stream(ns)) == Stream(ms) + Stream(ns);
    }
  }

  lemma StreamOfOne(m: P.Message)
    requires P.Representable(m)
    ensures Stream([m]) == P.Frame(m)
  {
    hide P.Frame;
    assert [m][1..] == [];
    assert P.Frame(m) + [] == P.Frame(m);
  }

  /** Where the stream goes on after its first k messages. */
  lemma StreamAfter(ms: seq<P.Message>, k: nat)
    requires Representables(ms) && k <= |ms|
    ensures Stream(ms) == Stream(ms[..k]) + Stream(ms[k..])
    ensures k < |ms| ==> Stream(ms[k..]) == P.Frame(ms[k]) + Stream(ms[k + 1..])
    ensures k == |ms| ==> Stream(ms[k..]) == []
  {
    hide P.Frame, P.Representable;
    StreamOfConcat(ms[..k], ms[k..]);
    assert ms[..k] + ms[k..] == ms;
    if k < |ms| {
      assert ms[k..][1..] == ms[k + 1..];
    }
  }

  // ---------------------------------------------------------------- invariant

  ghost predicate FramesQueued(registered: set<seq<byte>>, tx: Out.Sender) {
    && (forall t :: t in tx.tasks && t.SendTask? ==> IsFrame(registered, t.data))
    && (forall call :: call in tx.calls && call.Sending? ==> IsFrame(registered, call.data))
  }

  ghost predicate IsFrame(registered: set<seq<byte>>, data: seq<byte>) {
    exists m :: PS.Deliverable(registered, m) && P.Frame(m) == data
  }

  /** The receiver stands between two frames of what was sent, or behind a header. */
  ghost predicate Aligned(registered: set<seq<byte>>, s: System)
    requires Representables(s.sent)
  {
    && s.delivered <= s.sent
    && match s.rx.pending
       case Idle => true
       case HeaderRead =>
         && In.InStep(s.rx, P.MAX_MESSAGE_LEN)
         && s.rx.stream == Stream(s.delivered)
       case BodyRead(len) =>
         && In.InStep(s.rx, P.MAX_MESSAGE_LEN)
         && |s.delivered| < |s.sent|
         && var m := s.sent[|s.delivered|];
         && len == |P.Body(m)|
         && s.rx.stream == Stream(s.delivered) + P.Frame(m)[..In.HEADER_LEN]
         && s.rx.store.Contents() == P.Frame(m)[..In.HEADER_LEN]
  }

  ghost predicate Invariant(registered: set<seq<byte>>, s: System) {
    && Out.Sound(s.tx)
    && PS.AllDeliverable(registered, s.sent)
    && Representables(s.sent)
    && s.tx.accepted == Stream(s.sent)
    && s.rx.stream <= s.tx.wire
    && FramesQueued(registered, s.tx)
    && Aligned(registered, s)
  }

  // ------------------------------------------------------------- sending steps

  lemma SendingKeeps(registered: set<seq<byte>>, s: System, e: Event)
    requires Invariant(registered, s) && Possible(registered, s, e)
    requires !e.HeaderArrives? && !e.BodyArrives? && !e.ReadFails?
    ensures Good(registered, s, e) && Invariant(registered, Apply(registered, s, e))
    ensures s.sent <= Apply(registered, s, e).sent
    ensures s.delivered <= Apply(registered, s, e).delivered
  {
    hide P.Frame, P.Body, Out.Sound, In.InStep, PS.Drained, Stream;
    if e.Transport? {
      TransportKeeps(registered, s, e.e);
      assert s.sent + [] == s.sent;
    } else {
      FrameNotEmpty(e.m);
      StreamOfOne(e.m);
      StreamOfConcat(s.sent, [e.m]);
      AcceptKeeps(registered, s, e);
    }
  }

  lemma FrameNotEmpty(m: P.Message)
    requires P.Representable(m)
    ensures P.Frame(m) != [] && |P.Frame(m)| == In.HEADER_LEN + |P.Body(m)|
  {
  }

  lemma TransportKeeps(registered: set<seq<byte>>, s: System, e: Out.Event)
    requires Invariant(registered, s) && Possible(registered, s, Transport(e))
    ensures Out.Asserted(s.tx, e) && Out.Sound(Out.Apply(s.tx, e))
    ensures var tx := Out.Apply(s.tx, e);
      tx.accepted == s.tx.accepted && s.tx.wire <= tx.wire && FramesQueued(registered, tx)
  {
    hide P.Frame, P.Body, Out.Sound, In.InStep, Stream;
    Out.SoundKept(s.tx, e);
  }

  lemma AcceptKeeps(registered: set<seq<byte>>, s: System, e: Event)
    requires Invariant(registered, s) && Possible(registered, s, e)
    requires e.Sends? || e.SendsElsewhere? || e.RunsSend?
    requires P.Frame(e.m) != []
    requires Representables(s.sent + [e.m]) && Stream(s.sent + [e.m]) == Stream(s.sent) + P.Frame(e.m)
    ensures Good(registered, s, e) && Invariant(registered, Apply(registered, s, e))
    ensures s.sent <= Apply(registered, s, e).sent
    ensures s.delivered <= Apply(registered, s, e).delivered
  {
    hide P.Frame, P.Body, Out.Sound, In.InStep, Stream;
    Out.SoundKept(s.tx, Sending(s, e));
    var t := Apply(registered, s, e);
    assert IsFrame(registered, P.Frame(e.m));
    assert s.sent + [] == s.sent;
    assert t.tx.accepted == Stream(t.sent);
  }

  // ----------------------------------------------------------- receiving steps

  /** A window of the wire inside the frame of message k. */
  lemma WindowOfFrame(ms: seq<P.Message>, k: nat, wire: seq<byte>, j: nat, n: nat)
    requires Representables(ms) && k <= |ms| && wire <= Stream(ms)
    requires |Stream(ms[..k])| + j + n <= |wire| && 0 < n
    ensures k < |ms|
    ensures j + n <= |P.Frame(ms[k])| ==>
      wire[|Stream(ms[..k])| + j..][..n] == P.Frame(ms[k])[j..j + n]
  {
    hide P.Frame, P.Representable, Stream;
    StreamAfter(ms, k);
    var off := |Stream(ms[..k])|;
    if k < |ms| && j + n <= |P.Frame(ms[k])| {
      var rest := Stream(ms[k + 1..]);
      assert Stream(ms) == Stream(ms[..k]) + (P.Frame(ms[k]) + rest);
      assert Stream(ms)[off + j..off + j + n] == P.Frame(ms[k])[j..j + n];
      assert wire[off + j..][..n] == Stream(ms)[off + j..off + j + n];
    }
  }

  lemma HeaderOfFrame(m: P.Message)
    requires P.Representable(m)
    ensures |P.Frame(m)| == In.HEADER_LEN + |P.Body(m)|
    ensures Decode(P.Frame(m)[..In.HEADER_LEN]) == |P.Body(m)|
    ensures P.Frame(m)[In.HEADER_LEN..] == P.Body(m)
  {
    hide P.Body;
    FourBytes();
    DecodeOfEncode(In.HEADER_LEN, |P.Body(m)|);
    assert P.Frame(m)[..In.HEADER_LEN] == Encode(In.HEADER_LEN, |P.Body(m)|);
  }

  /** The four bytes that arrive announce the body of the next undelivered message. */
  lemma NextHeader(registered: set<seq<byte>>, s: System)
    requires Invariant(registered, s) && Possible(registered, s, HeaderArrives)
    ensures |s.delivered| < |s.sent|
    ensures var m, data := s.sent[|s.delivered|], Available(s)[..In.HEADER_LEN];
      data == P.Frame(m)[..In.HEADER_LEN] && Decode(data) == |P.Body(m)| <= P.MAX_MESSAGE_LEN
  {
    hide P.Frame, P.Body, Out.Sound, In.InStep, Stream;
    var k := |s.delivered|;
    assert s.sent[..k] == s.delivered;
    assert s.tx.wire <= Stream(s.sent) by { WireIsAccepted(s.tx); }
    WindowOfFrame(s.sent, k, s.tx.wire, 0, In.HEADER_LEN);
    HeaderOfFrame(s.sent[k]);
    assert P.Frame(s.sent[k])[0..In.HEADER_LEN] == P.Frame(s.sent[k])[..In.HEADER_LEN];
    BodyWithinLimit(registered, s.sent[k]);
  }

  lemma WireIsAccepted(c: Out.Sender)
    requires Out.Sound(c)
    ensures c.wire <= c.accepted
  {
  }

  lemma BodyWithinLimit(registered: set<seq<byte>>, m: P.Message)
    requires PS.Deliverable(registered, m)
    ensures P.Representable(m) && |P.Body(m)| <= P.MAX_MESSAGE_LEN
  {
  }

  lemma HeaderKeeps(registered: set<seq<byte>>, s: System)
    requires Invariant(registered, s) && Possible(registered, s, HeaderArrives)
    ensures Good(registered, s, HeaderArrives)
    ensures Invariant(registered, Apply(registered, s, HeaderArrives))
  {
    hide P.Frame, P.Body, Out.Sound, Stream, Decode, In.Apply, In.Sane, In.InStep;
    NextHeader(registered, s);
    var data := Available(s)[..In.HEADER_LEN];
    In.HeaderInStep(s.rx, data, P.MAX_MESSAGE_LEN);
    var t := Apply(registered, s, HeaderArrives);
    assert t.rx.stream <= t.tx.wire;
  }

  lemma NextBody(registered: set<seq<byte>>, s: System)
    requires Invariant(registered, s) && Possible(registered, s, BodyArrives)
    ensures |s.delivered| < |s.sent|
    ensures var m := s.sent[|s.delivered|];
      Available(s)[..s.rx.pending.len] == P.Body(m) && Shown(registered, s) == P.Frame(m)
  {
    hide P.Frame, P.Body, Out.Sound, In.InStep, Stream;
    var k, len := |s.delivered|, s.rx.pending.len;
    var m := s.sent[k];
    assert s.sent[..k] == s.delivered;
    WireIsAccepted(s.tx);
    HeaderOfFrame(m);
    assert s.rx.store.Valid() by { LayoutIsValid(s.rx); }
    WindowOfFrame(s.sent, k, s.tx.wire, In.HEADER_LEN, len);
    assert P.Frame(m)[In.HEADER_LEN..In.HEADER_LEN + len] == P.Body(m);
    assert P.Frame(m) == P.Frame(m)[..In.HEADER_LEN] + P.Body(m);
  }

  lemma LayoutIsValid(r: In.Reader)
    requires In.InStep(r, P.MAX_MESSAGE_LEN)
    ensures r.store.Valid()
  {
  }

  lemma OneFrameDrained(registered: set<seq<byte>>, m: P.Message)
    requires PS.Deliverable(registered, m)
    ensures P.Representable(m)
    ensures PS.Drained(registered, P.Frame(m)) == PS.Outcome([m], [], PS.Waits)
  {
    hide P.Body, PS.Drained, P.FrameOf;
    PS.DrainedOfSent(registered, [m]);
    assert PS.Bodies([m]) == [P.Body(m)];
    assert [P.Body(m)][1..] == [];
    assert P.FrameOf(P.Body(m)) + [] == P.FrameOf(P.Body(m));
  }

  lemma BodyKeeps(registered: set<seq<byte>>, s: System)
    requires Invariant(registered, s) && Possible(registered, s, BodyArrives)
    ensures Good(registered, s, BodyArrives)
    ensures Invariant(registered, Apply(registered, s, BodyArrives))
    ensures |s.delivered| < |s.sent|
    ensures Apply(registered, s, BodyArrives).delivered == s.delivered + [s.sent[|s.delivered|]]
    ensures Apply(registered, s, BodyArrives).rx.store.Contents() == []
  {
    hide P.Frame, P.Body, Out.Sound, Stream, Decode, PS.Drained;
    NextBody(registered, s);
    var m := s.sent[|s.delivered|];
    OneFrameDrained(registered, m);
    In.BodyInStep(s.rx, Receiving(registered, s, BodyArrives), P.MAX_MESSAGE_LEN);
    StreamOfOne(m);
    assert s.sent[..|s.delivered|] == s.delivered;
    StreamOfConcat(s.delivered, [m]);
    BodyEndsFrame(s, m);
    var t := Apply(registered, s, BodyArrives);
    assert t.delivered == s.delivered + [m];
    assert t.rx.stream == Stream(t.delivered);
  }

  lemma BodyEndsFrame(s: System, m: P.Message)
    requires P.Representable(m) && Representables(s.delivered)
    ensures Stream(s.delivered) + P.Frame(m)[..In.HEADER_LEN] + P.Body(m) == Stream(s.delivered) + P.Frame(m)
  {
    hide P.Body, Stream;
    HeaderOfFrame(m);
    assert P.Frame(m) == P.Frame(m)[..In.HEADER_LEN] + P.Body(m);
  }

  lemma StepKeeps(registered: set<seq<byte>>, s: System, e: Event)
    requires Invariant(registered, s) && Possible(registered, s, e)
    ensures Good(registered, s, e) && Invariant(registered, Apply(registered, s, e))
    ensures s.sent <= Apply(registered, s, e).sent
    ensures s.delivered <= Apply(registered, s, e).delivered
    ensures e.BodyArrives? ==> Apply(registered, s, e).rx.store.Contents() == []
  {
    hide P.Frame, P.Body, Out.Sound, Stream, Decode, PS.Drained, In.InStep;
    match e
    case HeaderArrives => HeaderKeeps(registered, s);
    case BodyArrives => BodyKeeps(registered, s);
    case ReadFails =>
    case _ => SendingKeeps(registered, s, e);
  }

  // -------------------------------------------------------------------- runs

  /** A run: every event is one the environment or a caller can cause at its point. */
  ghost predicate Legal(registered: set<seq<byte>>, s: System, es: seq<Event>)
    decreases |es|
  {
    es == [] ||
    (s.rx.stream <= s.tx.wire && Possible(registered, s, es[0]) &&
     (Good(registered, s, es[0]) ==> Legal(registered, Apply(registered, s, es[0]), es[1..])))
  }

  /** Nothing goes wrong along the run: Good at every step. */
  ghost predicate Safe(registered: set<seq<byte>>, s: System, es: seq<Event>)
    requires Legal(registered, s, es)
    decreases |es|
  {
    es == [] || (Good(registered, s, es[0]) && Safe(registered, Apply(registered, s, es[0]), es[1..]))
  }

  ghost function Run(registered: set<seq<byte>>, s: System, es: seq<Event>): System
    requires Legal(registered, s, es) && Safe(registered, s, es)
    decreases |es|
  {
    if es == [] then s else Run(registered, Apply(registered, s, es[0]), es[1..])
  }

  lemma {:induction false} RunKeeps(registered: set<seq<byte>>, s: System, es: seq<Event>)
    requires Invariant(registered, s) && Legal(registered, s, es)
    ensures Safe(registered, s, es)
    ensures Invariant(registered, Run(registered, s, es))
    decreases |es|
  {
    hide Invariant, Possible, Good, Apply;
    if es != [] {
      StepKeeps(registered, s, es[0]);
      RunKeeps(registered, Apply(registered, s, es[0]), es[1..]);
    }
  }

  lemma InitialInvariant(registered: set<seq<byte>>)
    ensures Invariant(registered, INITIAL)
  {
    In.InitiallyInStep(P.MAX_MESSAGE_LEN);
    Out.InitiallySound();
  }

  /**
   End-to-end delivery. In every run of a sender and a receiver, from the opening of
   the connection, no assertion fails, no read leaves the array, every call of onMessage
   returns, and the callbacks fired are a prefix of the messages sent: same names, same
   payloads, same order. Between frames the input buffer is empty.
   */
  lemma EndToEnd(registered: set<seq<byte>>, es: seq<Event>)
    requires Legal(registered, INITIAL, es)
    ensures Safe(registered, INITIAL, es)
    ensures var s := Run(registered, INITIAL, es);
      && s.delivered <= s.sent
      && (s.rx.pending == In.HeaderRead ==> s.rx.store.Valid() && s.rx.store.Contents() == [])
  {
    hide Possible, Good, Apply, Out.Sound, Invariant;
    InitialInvariant(registered);
    RunKeeps(registered, INITIAL, es);
    BetweenFrames(registered, Run(registered, INITIAL, es));
  }

  lemma BetweenFrames(registered: set<seq<byte>>, s: System)
    requires Invariant(registered, s)
    ensures s.delivered <= s.sent
    ensures s.rx.pending == In.HeaderRead ==> s.rx.store.Valid() && s.rx.store.Contents() == []
  {
  }

  /**
   Nothing is held back: once the sender has drained without error, a receiver that is
   still reading either can complete its read or has delivered everything.
   */
  lemma DrainedMeansDelivered(registered: set<seq<byte>>, s: System)
    requires Invariant(registered, s)
    requires s.tx.output == [] && !s.tx.failed && s.rx.pending != In.Idle
    ensures Possible(registered, s, HeaderArrives) || Possible(registered, s, BodyArrives) || s.delivered == s.sent
  {
    hide P.Frame, P.Body, Stream, In.InStep;
    var k := |s.delivered|;
    assert s.sent[..k] == s.delivered;
    assert s.tx.wire == Stream(s.sent);
    StreamAfter(s.sent, k);
    if k < |s.sent| {
      HeaderOfFrame(s.sent[k]);
      var rest := Stream(s.sent[k + 1..]);
      assert |Stream(s.sent)| == |Stream(s.delivered)| + |P.Frame(s.sent[k])| + |rest|;
    }
  }

  // ---------------------------------------------- frames of out-of-range length

  /** What readHeader has left in the buffer, and a body, make up the frame of that body. */
  lemma HeaderAndBody(r: In.Reader, data: seq<byte>, max: nat)
    requires In.InStep(r, max) && r.pending == In.BodyRead(|data|)
    ensures r.store.Valid() && |data| < 0x8000_0000
    ensures r.store.Contents() + data == P.FrameOf(data)
  {
    hide Decode, Encode;
    FourBytes();
    EncodeOfDecode(r.store.Contents());
  }

  /** How onMessage ends on one frame, if it ends. */
  lemma DrainedFrame(registered: set<seq<byte>>, body: seq<byte>)
    requires |body| < 0x8000_0000 && !PS.Drained(registered, P.FrameOf(body)).verdict.Spins?
    ensures PS.InRange(body) ==> PS.Drained(registered, P.FrameOf(body)).rest == []
    ensures !PS.InRange(body) ==>
      PS.Drained(registered, P.FrameOf(body)) ==
      PS.Outcome([], P.FrameOf(body), if |body| < 10 then PS.Waits else PS.Rejects)
  {
    hide PS.Drained, PS.Terminates, P.Parse, PS.Next;
    PS.TerminatesIffNotSpinning(registered, P.FrameOf(body));
    PS.TerminatesOnFrameIff(registered, body);
    if PS.InRange(body) {
      assert P.FrameOf(body) + [] == P.FrameOf(body);
      PS.NextOfFrame(registered, body, []);
      PS.DrainedTurn(registered, P.FrameOf(body));
      PS.EndingStops(registered, []);
    } else {
      OutOfRangeEnds(registered, body);
    }
  }

  /** A body of fewer than ten bytes, or of more than 64 MiB, is neither delivered nor taken. */
  lemma OutOfRangeEnds(registered: set<seq<byte>>, body: seq<byte>)
    requires |body| < 0x8000_0000 && !PS.InRange(body)
    ensures PS.Drained(registered, P.FrameOf(body)) ==
      PS.Outcome([], P.FrameOf(body), if |body| < 10 then PS.Waits else PS.Rejects)
  {
    hide PS.Drained, Decode;
    FourBytes();
    DecodeOfEncode(In.HEADER_LEN, |body|);
    assert P.FrameOf(body)[..In.HEADER_LEN] == Encode(In.HEADER_LEN, |body|);
    PS.EndingStops(registered, P.FrameOf(body));
  }

  /**
   ProtobufCodec keeps the framing of readHeader and readBody, on every body on which
   onMessage returns at all, exactly if the length of the body is in range.
   */
  lemma CodecKeepsStepIff(registered: set<seq<byte>>, r: In.Reader, data: seq<byte>, max: nat)
    requires In.InStep(r, max) && r.pending == In.BodyRead(|data|)
    requires r.store.Valid() && !PS.Drained(registered, r.store.Contents() + data).verdict.Spins?
    ensures
      var shown := r.store.Contents() + data;
      var taken := |shown| - |PS.Drained(registered, shown).rest|;
      && taken >= 0 && In.Possible(r, In.Body(data, taken)) && In.Sane(r, In.Body(data, taken))
      && (In.InStep(In.Apply(r, In.Body(data, taken)), max) <==> PS.InRange(data))
  {
    hide PS.Drained, Decode, P.FrameOf, In.Apply, In.Stored;
    HeaderAndBody(r, data, max);
    DrainedFrame(registered, data);
    var shown := r.store.Contents() + data;
    var taken := |shown| - |PS.Drained(registered, shown).rest|;
    assert In.Stored(r, data).Contents() == shown;
    assert In.Drains(r, In.Body(data, taken)) <==> PS.InRange(data);
    In.InStepIffDrained(r, In.Body(data, taken), max);
  }

  /**
   A frame whose length is out of range stays in the buffer, and the connection reads on.
   The next header lands inside the array exactly if the array was already large enough
   for the frame and that header; and then the old length is read again, whatever came.
   */
  lemma OutOfRangeFrameStays(
    registered: set<seq<byte>>, r: In.Reader, body: seq<byte>, next: seq<byte>, max: nat)
    requires !PS.InRange(body) && |body| <= max && |body| < 0x8000_0000 && |next| == In.HEADER_LEN
    requires In.InStep(r, max) && r.pending == In.HeaderRead
    ensures PS.Drained(registered, P.FrameOf(body)) ==
      PS.Outcome([], P.FrameOf(body), if |body| < 10 then PS.Waits else PS.Rejects)
    ensures
      var data := P.FrameOf(body)[..In.HEADER_LEN];
      && In.Possible(r, In.Header(data)) && In.Sane(r, In.Header(data))
      && In.Possible(In.Apply(r, In.Header(data)), In.Body(body, 0))
      && In.Sane(In.Apply(r, In.Header(data)), In.Body(body, 0))
      && (In.Fits(In.AfterFrame(r, data, body, 0), In.Header(next)) <==>
            |P.FrameOf(body)| + In.HEADER_LEN <= r.store.Writable())
      && (In.Fits(In.AfterFrame(r, data, body, 0), In.Header(next)) ==>
            In.Announced(In.AfterFrame(r, data, body, 0), next) == |body|)
  {
    OutOfRangeEnds(registered, body);
    hide PS.Drained, Decode, In.Apply, In.Sane, In.InStep, In.AfterFrame, In.Announced;
    FourBytes();
    DecodeOfEncode(In.HEADER_LEN, |body|);
    var data := P.FrameOf(body)[..In.HEADER_LEN];
    assert data == Encode(In.HEADER_LEN, |body|);
    In.UndrainedHeaderFitsIff(r, data, body, 0, next, max);
    if |P.FrameOf(body)| + In.HEADER_LEN <= r.store.Writable() {
      In.StaleHeader(r, data, body, next, max);
    }
  }
}
