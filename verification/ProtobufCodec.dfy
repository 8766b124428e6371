/**
 ProtobufCodec: typed messages framed by a length and closed by an Adler-32 trailer.
 Serialised messages are opaque bytes; a type name either is registered or is not.
 */
module ProtobufCodec {
  import opened Bytes
  import opened Buffers
  import opened Basics
  import A = Adler32
  import B = BufferSpec

  const HEADER_LEN: nat := 4
  const MIN_MESSAGE_LEN: int := 2 * HEADER_LEN + 2
  const MAX_MESSAGE_LEN: int := 64 * 1024 * 1024

  datatype Message = Message(name: seq<byte>, payload: seq<byte>)

  // ---------------------------------------------------------------- encoding

  /** The int32 fields of the frame can hold its lengths. */
  predicate Representable(m: Message) {
    2 * HEADER_LEN + |m.name| + 1 + |m.payload| < 0x8000_0000
  }

  /** The part of the frame that the checksum covers. */
  function Checked(m: Message): (s: seq<byte>)
    requires Representable(m)
    ensures |s| == HEADER_LEN + |m.name| + 1 + |m.payload|
  {
    FourBytes();
    Encode(HEADER_LEN, |m.name| + 1) + (m.name + [0]) + m.payload
  }

  function Trailer(checked: seq<byte>): (t: seq<byte>)
    ensures |t| == HEADER_LEN
  {
    BigEndian(HEADER_LEN, A.Checksum(checked))
  }

  function Body(m: Message): (s: seq<byte>)
    requires Representable(m)
    ensures |s| == 2 * HEADER_LEN + |m.name| + 1 + |m.payload|
  {
    Checked(m) + Trailer(Checked(m))
  }

  function FrameOf(body: seq<byte>): (f: seq<byte>)
    requires |body| < 0x8000_0000
    ensures |f| == HEADER_LEN + |body|
  {
    FourBytes();
    Encode(HEADER_LEN, |body|) + body
  }

  function Frame(m: Message): seq<byte>
    requires Representable(m)
  {
    FrameOf(Body(m))
  }

  /** Casting the checksum to int32 and writing it in network order writes its four digits. */
  lemma TrailerIsEncoded(checked: seq<byte>)
    ensures Encode(HEADER_LEN, ToSigned(HEADER_LEN, A.Checksum(checked))) == Trailer(checked)
    ensures Decode(Trailer(checked)) == ToSigned(HEADER_LEN, A.Checksum(checked))
  {
    hide BigEndian, Unsigned, ToSigned, ToUnsigned, A.Checksum;
    CastsAreInverse(HEADER_LEN, A.Checksum(checked), 0);
    UnsignedOfBigEndian(HEADER_LEN, A.Checksum(checked));
  }

  method Send(message: Message) returns (buff: Buffer)
    requires Representable(message)
    ensures fresh(buff) && fresh(buff.buffer) && buff.Valid()
    ensures buff.Contents() == Frame(message)
  {
    hide B.Append, B.Prepend, Body, Trailer, Checked, Encode;
    FourBytes();
    buff := new Buffer(B.INITIAL_SIZE);
    AppendChecked(buff, message);
    AppendTrailer(buff, message);
    buff.PrependInt(HEADER_LEN, buff.ReadableBytes());
  }

  /** Name length, name with its terminating zero, and the serialised message. */
  method AppendChecked(buff: Buffer, message: Message)
    requires Representable(message)
    requires buff.Valid() && buff.Contents() == [] && buff.readerIndex == B.CHEAP_PREPEND
    modifies buff, buff.buffer
    ensures buff.Valid() && (buff.buffer == old(buff.buffer) || fresh(buff.buffer))
    ensures buff.Contents() == Checked(message) && buff.readerIndex == B.CHEAP_PREPEND
  {
    hide B.Append, B.EnsureWritable, B.Poke, B.HasWritten, B.MakeSpace, Encode;
    FourBytes();
    ghost var head := Encode(HEADER_LEN, |message.name| + 1);
    buff.AppendInt(HEADER_LEN, |message.name| + 1);
    assert buff.Contents() == head by { assert [] + head == head; }
    buff.Append(message.name + [0]);
    buff.EnsureWritableBytes(|message.payload|);
    buff.Receive(message.payload);
  }

  method AppendTrailer(buff: Buffer, ghost message: Message)
    requires Representable(message)
    requires buff.Valid() && buff.Contents() == Checked(message) && buff.readerIndex == B.CHEAP_PREPEND
    modifies buff, buff.buffer
    ensures buff.Valid() && (buff.buffer == old(buff.buffer) || fresh(buff.buffer))
    ensures buff.Contents() == Body(message) && buff.readerIndex == B.CHEAP_PREPEND
  {
    hide B.Append, A.Checksum, Checked, Encode, BigEndian, ToSigned;
    TrailerIsEncoded(buff.Contents());
    var checkSum := A.Checksum(buff.buffer[buff.readerIndex..buff.writerIndex]);
    buff.AppendInt(HEADER_LEN, ToSigned(HEADER_LEN, checkSum));
  }

  // ---------------------------------------------------------------- decoding

  predicate ChecksumMatches(data: seq<byte>)
    requires |data| >= HEADER_LEN
  {
    var end := |data| - HEADER_LEN;
    Decode(data[end..]) == ToSigned(HEADER_LEN, A.Checksum(data[..end]))
  }

  /** nullptr is None; a type name with no descriptor gives nullptr too. */
  function Parse(registered: set<seq<byte>>, data: seq<byte>): Option<Message>
    requires |data| >= 2 * HEADER_LEN
  {
    if !ChecksumMatches(data) then None else
      var nameLen := Decode(data[..HEADER_LEN]);
      if !(2 <= nameLen <= |data| - 2 * HEADER_LEN) then None else
        var typeName := data[HEADER_LEN..HEADER_LEN + nameLen - 1];
        if typeName !in registered then None else
          Some(Message(typeName, data[HEADER_LEN + nameLen..|data| - HEADER_LEN]))
  }

  lemma ChecksumMatchesIff(data: seq<byte>)
    requires |data| >= HEADER_LEN
    ensures ChecksumMatches(data) <==> data[|data| - HEADER_LEN..] == Trailer(data[..|data| - HEADER_LEN])
  {
    hide BigEndian, ToSigned, A.Checksum, Decode, Encode;
    var checked, trailer := data[..|data| - HEADER_LEN], data[|data| - HEADER_LEN..];
    TrailerIsEncoded(checked);
    EncodeOfDecode(trailer);
  }

  lemma PartsOfBody(m: Message)
    requires Representable(m)
    ensures Body(m)[..|Body(m)| - HEADER_LEN] == Checked(m)
    ensures Body(m)[|Body(m)| - HEADER_LEN..] == Trailer(Checked(m))
    ensures Decode(Body(m)[..HEADER_LEN]) == |m.name| + 1
    ensures Body(m)[HEADER_LEN..HEADER_LEN + |m.name|] == m.name
    ensures Body(m)[HEADER_LEN + |m.name| + 1..|Body(m)| - HEADER_LEN] == m.payload
  {
    hide Trailer, Decode, Encode;
    FourBytes();
    DecodeOfEncode(HEADER_LEN, |m.name| + 1);
    var head, named := Encode(HEADER_LEN, |m.name| + 1), m.name + [0];
    assert Body(m) == head + (m.name + ([0] + m.payload + Trailer(Checked(m))));
    assert Body(m) == (head + named) + (m.payload + Trailer(Checked(m)));
  }

  /**
   A frame in bytes: the length of the body; the length of the name and its zero; the
   name, closed by a zero byte; the payload; and the checksum of all but the first length.
   */
  lemma FrameInBytes(m: Message)
    requires Representable(m)
    ensures var f, n := Frame(m), |m.name|;
      && |f| == 4 + 4 + n + 1 + |m.payload| + 4
      && Decode(f[..4]) == |f| - 4
      && Decode(f[4..8]) == n + 1
      && f[8..8 + n] == m.name && f[8 + n] == 0
      && f[9 + n..|f| - 4] == m.payload
      && Unsigned(f[|f| - 4..]) == A.Checksum(f[4..|f| - 4])
  {
    hide Trailer, Decode, Encode, A.Checksum;
    FourBytes();
    var body, f, n := Body(m), Frame(m), |m.name|;
    PartsOfBody(m);
    DecodeOfEncode(HEADER_LEN, |body|);
    TrailerValue(Checked(m));
    assert f[..4] == Encode(HEADER_LEN, |body|);
    assert f[4..] == body;
    assert f[4..8] == body[..4] && f[8..8 + n] == body[4..4 + n] && f[8 + n] == body[4 + n];
    assert f[9 + n..|f| - 4] == body[5 + n..|body| - 4];
    assert f[|f| - 4..] == body[|body| - 4..] && f[4..|f| - 4] == body[..|body| - 4];
    ClosedByZero(m);
  }

  lemma ClosedByZero(m: Message)
    requires Representable(m)
    ensures Body(m)[4 + |m.name|] == 0
  {
    FourBytes();
    var head := Encode(HEADER_LEN, |m.name| + 1);
    assert Body(m) == head + (m.name + ([0] + (m.payload + Trailer(Checked(m)))));
  }

  lemma TrailerValue(checked: seq<byte>)
    ensures Unsigned(Trailer(checked)) == A.Checksum(checked)
  {
    hide BigEndian, A.Checksum;
    UnsignedOfBigEndian(HEADER_LEN, A.Checksum(checked));
  }

  /** parse undoes the encoding exactly for non-empty, registered type names. */
  lemma ParseOfBody(registered: set<seq<byte>>, m: Message)
    requires Representable(m)
    ensures Parse(registered, Body(m)) == if m.name != [] && m.name in registered then Some(m) else None
  {
    hide Checked, Trailer, Body, ChecksumMatches;
    PartsOfBody(m);
    ChecksumMatchesIff(Body(m));
  }

  // ------------------------------------------------------ corruption detection

  /** No single byte of a frame body can be replaced unnoticed, wherever it lies. */
  lemma ReplacedByteDetected(registered: set<seq<byte>>, m: Message, i: nat, v: byte)
    requires Representable(m) && i < |Body(m)| && v != Body(m)[i]
    ensures Parse(registered, Body(m)[i := v]) == None
  {
    hide Checked, Trailer, Body, ChecksumMatches;
    var good, bad := Body(m), Body(m)[i := v];
    var end := |good| - HEADER_LEN;
    PartsOfBody(m);
    ChecksumMatchesIff(bad);
    if i < end {
      assert bad[..end] == good[..end][i := v];
      assert bad[end..] == good[end..];
      A.ReplacementDetected(good[..end], i, v);
      TrailersDiffer(bad[..end], good[..end]);
    } else {
      assert bad[..end] == good[..end];
      assert bad[end..][i - end] != good[end..][i - end];
    }
  }

  lemma TrailersDiffer(s: seq<byte>, t: seq<byte>)
    ensures Trailer(s) == Trailer(t) <==> A.Checksum(s) == A.Checksum(t)
  {
    hide BigEndian, A.Checksum;
    UnsignedOfBigEndian(HEADER_LEN, A.Checksum(s));
    UnsignedOfBigEndian(HEADER_LEN, A.Checksum(t));
  }

  /**
   Exchanging two unequal checked bytes passes the checksum only at a distance that
   65521 divides; in particular every exchange within 65520 bytes is detected.
   */
  lemma SwappedBytesPassIff(m: Message, i: nat, j: nat)
    requires Representable(m) && i < j < |Checked(m)| && Body(m)[i] != Body(m)[j]
    ensures ChecksumMatches(A.Swapped(Body(m), i, j)) <==> (j - i) % A.MODULUS == 0
  {
    hide Checked, Trailer, Body, ChecksumMatches;
    var good, bad := Body(m), A.Swapped(Body(m), i, j);
    var end := |good| - HEADER_LEN;
    PartsOfBody(m);
    ChecksumMatchesIff(bad);
    assert bad[..end] == A.Swapped(good[..end], i, j);
    assert bad[end..] == good[end..];
    A.SwapKeepsChecksumIff(good[..end], i, j);
    TrailersDiffer(bad[..end], good[..end]);
  }

  lemma SwappedBytesDetected(registered: set<seq<byte>>, m: Message, i: nat, j: nat)
    requires Representable(m) && i < j < |Checked(m)| && Body(m)[i] != Body(m)[j]
    requires j - i < A.MODULUS
    ensures Parse(registered, A.Swapped(Body(m), i, j)) == None
  {
    hide Checked, Body, ChecksumMatches;
    SwappedBytesPassIff(m, i, j);
  }
}
