/**
 The input half of a TcpConnection as a transition system: inputBuffer_ with its
 physical layout, the async_read outstanding, and what the message callback saw.
 */
module ReadSide {
  import opened Basics
  import opened Bytes
  import B = BufferSpec

  const HEADER_LEN: nat := 4

  datatype Read = Idle | HeaderRead | BodyRead(len: nat)

  /** stream and seen are history: the bytes received, and the buffer at each message callback. */
  datatype Reader = Reader(store: B.Store, pending: Read, stream: seq<byte>, seen: seq<seq<byte>>)

  const INITIAL: Reader := Reader(B.Fresh(B.INITIAL_SIZE), Idle, [], [])

  /** async_read fills exactly what it was asked for; then the handler runs. */
  datatype Event =
    | Header(data: seq<byte>)
    | Body(data: seq<byte>, taken: nat)

  function ReadHeader(r: Reader): Reader {
    r.(pending := HeaderRead)
  }

  predicate Possible(r: Reader, e: Event) {
    match e
    case Header(data) => r.pending == HeaderRead && |data| == HEADER_LEN
    case Body(data, _) => r.pending == BodyRead(|data|)
  }

  /** The bytes land inside the array: no space is reserved for a header. */
  predicate Fits(r: Reader, e: Event) {
    r.store.Valid() && |e.data| <= r.store.Writable()
  }

  function Stored(r: Reader, data: seq<byte>): (s: B.Store)
    requires r.store.Valid() && |data| <= r.store.Writable()
    ensures s.Valid() && s.Contents() == r.store.Contents() + data
    ensures s.reader == r.store.reader && s.writer == r.store.writer + |data|
    ensures |s.bytes| == |r.store.bytes|
  {
    B.PokeThenHasWritten(r.store, data, |data|);
    assert data[..|data|] == data;
    B.HasWritten(B.Poke(r.store, data), |data|)
  }

  /** What peekInt32 finds after a header has arrived: the front of the buffer. */
  function Announced(r: Reader, data: seq<byte>): int
    requires r.store.Valid() && |data| <= r.store.Writable() && |data| == HEADER_LEN
  {
    Decode(Stored(r, data).Contents()[..HEADER_LEN])
  }

  predicate Sane(r: Reader, e: Event)
    requires Possible(r, e)
  {
    && Fits(r, e)
    && (e.Header? ==> Announced(r, e.data) >= 0)
    && (e.Body? ==> 0 < Stored(r, e.data).Readable() && e.taken <= Stored(r, e.data).Readable())
  }

  function Apply(r: Reader, e: Event): Reader
    requires Possible(r, e) && Sane(r, e)
  {
    var stored := Stored(r, e.data);
    match e
    case Header(data) =>
      var len := Announced(r, data);
      r.(store := B.EnsureWritable(stored, len), pending := BodyRead(len), stream := r.stream + data)
    case Body(data, taken) =>
      ReadHeader(r.(store := B.Retrieve(stored, taken), stream := r.stream + data,
                    seen := r.seen + [stored.Contents()]))
  }

  // --------------------------------------------------------------- framing

  /** A header and the body it announces. */
  predicate Framed(f: seq<byte>) {
    |f| >= HEADER_LEN && |f| == HEADER_LEN + Decode(f[..HEADER_LEN])
  }

  predicate AllFramed(fs: seq<seq<byte>>) {
    forall i :: 0 <= i < |fs| ==> Framed(fs[i])
  }

  /** The peer never announces a negative length, nor one above max. */
  predicate HonestHeader(e: Event, max: nat) {
    e.Header? && |e.data| == HEADER_LEN ==> 0 <= Decode(e.data) <= max
  }

  /** The callback consumes everything it finds. */
  predicate Drains(r: Reader, e: Event)
    requires Possible(r, e)
  {
    Fits(r, e) && e.Body? ==> e.taken == Stored(r, e.data).Readable()
  }

  /** The layout at every readHeader and readBody, and what the callbacks have been shown. */
  predicate InStep(r: Reader, max: nat) {
    && r.store.Valid()
    && r.store.reader == B.CHEAP_PREPEND
    && B.CHEAP_PREPEND + HEADER_LEN <= |r.store.bytes| <= B.CHEAP_PREPEND + Max(B.INITIAL_SIZE, HEADER_LEN + max)
    && AllFramed(r.seen)
    && match r.pending
       case Idle => false
       case HeaderRead =>
         && r.store.writer == B.CHEAP_PREPEND
         && r.stream == Joined(r.seen)
       case BodyRead(len) =>
         && r.store.writer == B.CHEAP_PREPEND + HEADER_LEN
         && len <= r.store.Writable()
         && Decode(r.store.Contents()) == len
         && r.stream == Joined(r.seen) + r.store.Contents()
  }

  lemma HeaderInStep(r: Reader, data: seq<byte>, max: nat)
    requires InStep(r, max) && Possible(r, Header(data)) && HonestHeader(Header(data), max)
    ensures Sane(r, Header(data)) && InStep(Apply(r, Header(data)), max)
    ensures Apply(r, Header(data)).stream == r.stream + data
    ensures Apply(r, Header(data)).store.Contents() == data
    ensures Apply(r, Header(data)).pending == BodyRead(Decode(data))
  {
    hide B.EnsureWritable, B.Poke, Decode, Framed;
    var stored := Stored(r, data);
    assert stored.Contents() == data;
    assert data[..HEADER_LEN] == data;
    B.EnsureWritableMakesRoom(stored, Decode(data));
    StaysInPlace(stored, Decode(data));
  }

  lemma StaysInPlace(s: B.Store, len: nat)
    requires s.Valid() && s.reader == B.CHEAP_PREPEND
    ensures B.EnsureWritable(s, len).reader == s.reader && B.EnsureWritable(s, len).writer == s.writer
    ensures |B.EnsureWritable(s, len).bytes| <= Max(|s.bytes|, s.writer + len)
  {
  }

  lemma BodyInStep(r: Reader, e: Event, max: nat)
    requires InStep(r, max) && Possible(r, e) && e.Body? && Drains(r, e)
    ensures Sane(r, e) && InStep(Apply(r, e), max)
    ensures Apply(r, e).stream == r.stream + e.data
    ensures Apply(r, e).seen == r.seen + [r.store.Contents() + e.data]
  {
    hide B.Poke, Decode, Stored, Joined;
    var stored, next := Stored(r, e.data), Apply(r, e);
    var frame := stored.Contents();
    assert frame[..HEADER_LEN] == r.store.Contents();
    JoinedThen(r.seen, frame);
    assert next.seen == r.seen + [frame];
    assert Joined(r.seen) + (r.store.Contents() + e.data) == r.stream + e.data;
  }

  lemma {:induction false} JoinedThen(fs: seq<seq<byte>>, f: seq<byte>)
    ensures Joined(fs + [f]) == Joined(fs) + f
  {
    if fs == [] {
      assert [f][1..] == [];
    } else {
      JoinedThen(fs[1..], f);
      assert (fs + [f])[1..] == fs[1..] + [f];
      assert fs[0] + (Joined(fs[1..]) + f) == Joined(fs) + f;
    }
  }

  // -------------------------------------------------------------------- runs

  ghost predicate Legal(r: Reader, es: seq<Event>, max: nat)
    decreases |es|
  {
    es == [] ||
    (Possible(r, es[0]) && HonestHeader(es[0], max) && Drains(r, es[0]) &&
     (Sane(r, es[0]) ==> Legal(Apply(r, es[0]), es[1..], max)))
  }

  ghost predicate Safe(r: Reader, es: seq<Event>, max: nat)
    requires Legal(r, es, max)
    decreases |es|
  {
    es == [] || (Sane(r, es[0]) && Safe(Apply(r, es[0]), es[1..], max))
  }

  ghost function Run(r: Reader, es: seq<Event>, max: nat): Reader
    requires Legal(r, es, max) && Safe(r, es, max)
    decreases |es|
  {
    if es == [] then r else Run(Apply(r, es[0]), es[1..], max)
  }

  function Received(es: seq<Event>): seq<byte> {
    if es == [] then [] else es[0].data + Received(es[1..])
  }

  /**
   Read-side framing over every run with draining callbacks and honest headers: every
   read lands inside the array, each callback sees exactly one header with its body,
   in the order of the stream, and the array stays within its bound.
   */
  lemma {:induction false} ReadsInStep(r: Reader, es: seq<Event>, max: nat)
    requires InStep(r, max) && Legal(r, es, max)
    ensures Safe(r, es, max)
    ensures InStep(Run(r, es, max), max)
    ensures Run(r, es, max).stream == r.stream + Received(es)
    decreases |es|
  {
    hide InStep, Possible, Sane, Apply, Drains, HonestHeader;
    if es == [] {
      assert r.stream + [] == r.stream;
    } else {
      StepInStep(r, es[0], max);
      ReadsInStep(Apply(r, es[0]), es[1..], max);
      assert r.stream + es[0].data + Received(es[1..]) == r.stream + Received(es);
    }
  }

  lemma StepInStep(r: Reader, e: Event, max: nat)
    requires InStep(r, max) && Possible(r, e) && HonestHeader(e, max) && Drains(r, e)
    ensures Sane(r, e) && InStep(Apply(r, e), max)
    ensures Apply(r, e).stream == r.stream + e.data
  {
    hide InStep, Possible, Sane, Apply, Drains, HonestHeader;
    match e
    case Header(data) => HeaderInStep(r, data, max);
    case Body(_, _) => BodyInStep(r, e, max);
  }

  lemma InitiallyInStep(max: nat)
    ensures InStep(ReadHeader(INITIAL), max)
  {
  }

  /** A stream can be cut into headers with their bodies in one way only. */
  lemma {:induction false} FramingIsUnique(fs: seq<seq<byte>>, gs: seq<seq<byte>>)
    requires AllFramed(fs) && AllFramed(gs) && Joined(fs) == Joined(gs)
    ensures fs == gs
  {
    hide Framed;
    if fs == [] || gs == [] {
      FrameNotEmpty(fs);
      FrameNotEmpty(gs);
    } else {
      SameFirstFrame(fs[0], Joined(fs[1..]), gs[0], Joined(gs[1..]));
      FramingIsUnique(fs[1..], gs[1..]);
      assert fs == [fs[0]] + fs[1..] && gs == [gs[0]] + gs[1..];
    }
  }

  /** So the callbacks have been shown the headers and bodies of the stream, and nothing else. */
  lemma CallbacksSeeTheFrames(r: Reader, max: nat, fs: seq<seq<byte>>)
    requires InStep(r, max) && r.pending == HeaderRead
    requires AllFramed(fs) && Joined(fs) == r.stream
    ensures r.seen == fs
  {
    FramingIsUnique(r.seen, fs);
  }

  lemma FrameNotEmpty(fs: seq<seq<byte>>)
    requires AllFramed(fs)
    ensures fs != [] ==> |Joined(fs)| > 0
  {
  }

  lemma SameFirstFrame(f: seq<byte>, fs: seq<byte>, g: seq<byte>, gs: seq<byte>)
    requires Framed(f) && Framed(g) && f + fs == g + gs
    ensures f == g && fs == gs
  {
    hide Decode;
    assert f[..HEADER_LEN] == (f + fs)[..HEADER_LEN] == (g + gs)[..HEADER_LEN] == g[..HEADER_LEN];
    assert f == (f + fs)[..|f|] && g == (g + gs)[..|g|];
    assert fs == (f + fs)[|f|..] && gs == (g + gs)[|g|..];
  }

  /** A callback that only retrieves, as a step: now is the buffer that it leaves. */
  lemma BodyApplied(r: Reader, data: seq<byte>, now: B.Store)
    requires r.pending == BodyRead(|data|) && Fits(r, Body(data, 0)) && r.store.Contents() + data != []
    requires B.OnlyRetrieved(Stored(r, data), now)
    ensures var taken := |r.store.Contents() + data| - now.Readable();
      && taken >= 0 && Sane(r, Body(data, taken))
      && Apply(r, Body(data, taken)) ==
         Reader(now, HeaderRead, r.stream + data, r.seen + [r.store.Contents() + data])
  {
    hide B.Poke, B.Retrieve;
  }

  // --------------------------------------------- a callback that does not drain

  /** A callback that leaves bytes behind breaks the step, and nothing else it can do does. */
  lemma InStepIffDrained(r: Reader, e: Event, max: nat)
    requires InStep(r, max) && Possible(r, e) && e.Body? && Sane(r, e)
    ensures InStep(Apply(r, e), max) <==> Drains(r, e)
  {
    if Drains(r, e) {
      BodyInStep(r, e, max);
    } else {
      hide Decode, Joined, Framed, B.Poke, B.HasWritten;
    }
  }

  /** The layout after a header of data and a body of which the callback takes taken bytes. */
  function AfterFrame(r: Reader, data: seq<byte>, body: seq<byte>, taken: nat): Reader
    requires Possible(r, Header(data)) && Sane(r, Header(data))
    requires Possible(Apply(r, Header(data)), Body(body, taken))
    requires Sane(Apply(r, Header(data)), Body(body, taken))
  {
    Apply(Apply(r, Header(data)), Body(body, taken))
  }

  /**
   readHeader reserves nothing: once a callback has left part of a frame behind, the next
   header lands inside the array exactly if the array had four bytes to spare beyond the
   frame.
   */
  lemma UndrainedHeaderFitsIff(r: Reader, data: seq<byte>, body: seq<byte>, taken: nat, next: seq<byte>, max: nat)
    requires InStep(r, max) && Possible(r, Header(data)) && HonestHeader(Header(data), max)
    requires |body| == Decode(data) && taken < HEADER_LEN + |body| && |next| == HEADER_LEN
    ensures Sane(r, Header(data))
    ensures var h := Apply(r, Header(data));
      Possible(h, Body(body, taken)) && Sane(h, Body(body, taken)) &&
      (Fits(AfterFrame(r, data, body, taken), Header(next)) <==>
        HEADER_LEN + |body| + HEADER_LEN <= r.store.Writable())
  {
    hide Decode, Joined, Framed, B.Poke, B.HasWritten;
    HeaderInStep(r, data, max);
    var h := Apply(r, Header(data));
    var stored := Stored(r, data);
    assert stored.Contents() == data;
    assert data[..HEADER_LEN] == data;
    assert h.store == B.EnsureWritable(stored, |body|);
    RoomAfterReserving(stored, |body|);
    var full := Stored(h, body);
    assert full.Writable() == h.store.Writable() - |body|;
    PartlyRetrieved(full, taken);
  }

  /** If it left the whole frame, the length of that frame is read as the next header, whatever comes. */
  lemma StaleHeader(r: Reader, data: seq<byte>, body: seq<byte>, next: seq<byte>, max: nat)
    requires InStep(r, max) && Possible(r, Header(data)) && HonestHeader(Header(data), max)
    requires |body| == Decode(data) && |next| == HEADER_LEN
    requires HEADER_LEN + |body| + HEADER_LEN <= r.store.Writable()
    ensures Sane(r, Header(data))
    ensures var h := Apply(r, Header(data));
      && Possible(h, Body(body, 0)) && Sane(h, Body(body, 0))
      && Fits(AfterFrame(r, data, body, 0), Header(next))
      && Announced(AfterFrame(r, data, body, 0), next) == |body|
  {
    UndrainedHeaderFitsIff(r, data, body, 0, next, max);
    HeaderInStep(r, data, max);
    var after := AfterFrame(r, data, body, 0);
    LeftWhole(Apply(r, Header(data)), body);
    hide Decode, Apply, Stored, AfterFrame, InStep, Sane;
    assert Stored(after, next).Contents() == data + body + next;
    assert (data + body + next)[..HEADER_LEN] == data;
  }

  lemma LeftWhole(r: Reader, body: seq<byte>)
    requires Possible(r, Body(body, 0)) && Sane(r, Body(body, 0))
    ensures Apply(r, Body(body, 0)).store.Contents() == r.store.Contents() + body
  {
    hide B.Poke, B.HasWritten, Stored;
  }

  lemma RoomAfterReserving(s: B.Store, len: nat)
    requires s.Valid() && s.reader == B.CHEAP_PREPEND
    ensures B.EnsureWritable(s, len).Valid()
    ensures B.EnsureWritable(s, len).Writable() == Max(s.Writable(), len)
  {
    hide B.Zeros;
    B.EnsureWritableMakesRoom(s, len);
  }

  lemma PartlyRetrieved(s: B.Store, taken: nat)
    requires s.Valid() && taken < s.Readable()
    ensures B.Retrieve(s, taken).Valid() && B.Retrieve(s, taken).Writable() == s.Writable()
  {
  }

  // --------------------------------------- a negative header, with 64-bit sizes

  const SIZE_T: nat := 0x1_0000_0000_0000_0000
  const MAX_VECTOR: nat := 0x7fff_ffff_ffff_ffff

  /** What ensureWritableBytes does when size_t wraps around. */
  datatype Reservation = Kept | Resized(size: nat) | Moved | AssertionFails | LengthError

  function Wrapped(x: int): nat {
    x % SIZE_T
  }

  function Reserved(s: B.Store, len: nat): Reservation
    requires s.Valid()
  {
    if s.Writable() >= len then Kept
    else if Wrapped(s.Writable() + s.reader) < Wrapped(len + B.CHEAP_PREPEND) then
      (if Wrapped(s.writer + len) > MAX_VECTOR then LengthError else Resized(Wrapped(s.writer + len)))
    else if B.CHEAP_PREPEND < s.reader then Moved
    else AssertionFails
  }

  predicate MakesRoom(s: B.Store, len: nat)
    requires s.Valid()
  {
    match Reserved(s, len)
    case Kept => true
    case Resized(size) => s.writer + len <= size
    case Moved => s.Writable() + s.reader - B.CHEAP_PREPEND >= len
    case _ => false
  }

  /**
   When a header has been read at (8, 8), the reservation for the length it announces
   succeeds exactly if that length, an int32 converted to size_t, is not negative.
   */
  lemma RoomForBodyIff(s: B.Store, header: int)
    requires s.Valid() && s.reader == B.CHEAP_PREPEND && s.writer == B.CHEAP_PREPEND + HEADER_LEN
    requires FitsSigned(HEADER_LEN, header) && |s.bytes| <= MAX_VECTOR / 2
    ensures MakesRoom(s, Wrapped(header)) <==> header >= 0
  {
    FourBytes();
    if header < 0 {
      assert Wrapped(header) == SIZE_T + header;
    } else {
      assert Wrapped(header) == header;
    }
  }

  /** Below 2^62 the sizes do not wrap, and the reservation is the one of BufferSpec. */
  lemma ReservedIsEnsureWritable(s: B.Store, len: nat)
    requires s.Valid() && |s.bytes| <= MAX_VECTOR / 2 && len <= MAX_VECTOR / 2 - 1
    ensures MakesRoom(s, len)
    ensures Reserved(s, len).Resized? <==> s.Writable() < len && B.Grows(s, len)
    ensures Reserved(s, len).Resized? ==> Reserved(s, len).size == |B.EnsureWritable(s, len).bytes|
    ensures Reserved(s, len).Moved? <==> s.Writable() < len && !B.Grows(s, len)
  {
  }
}
