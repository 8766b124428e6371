/** Whole runs of Buffer operations: refinement of a byte sequence, and physical size. */
module BufferRuns {
  import opened Basics
  import opened Bytes
  import B = BufferSpec

  datatype Op =
    | Append(data: seq<byte>)
    | Prepend(data: seq<byte>)
    | Retrieve(len: nat)
    | RetrieveAll
    | Unwrite(len: nat)
    | EnsureWritable(len: nat)
    | Poke(data: seq<byte>)
    | HasWritten(len: nat)
    | Shrink(reserve: nat)
    | AppendInt(width: nat, x: int)
    | PrependInt(width: nat, x: int)
    | PeekInt(width: nat)
    | ReadInt(width: nat)

  predicate IsInt(width: nat, x: int) {
    width > 0 && FitsSigned(width, x)
  }

  /**
   What the operation demands of its caller: the assertion at its head, and for
   HasWritten that the bytes it exposes have been stored first.
   */
  predicate Allowed(s: B.Store, staged: nat, op: Op)
    requires s.Valid()
  {
    match op
    case Append(_) => true
    case Prepend(data) => |data| <= s.reader
    case Retrieve(len) => len <= s.Readable()
    case RetrieveAll => true
    case Unwrite(len) => len <= s.Readable()
    case EnsureWritable(_) => true
    case Poke(data) => |data| <= s.Writable()
    case HasWritten(len) => len <= staged && len <= s.Writable()
    case Shrink(_) => true
    case AppendInt(width, x) => IsInt(width, x)
    case PrependInt(width, x) => IsInt(width, x) && width <= s.reader
    case PeekInt(width) => 0 < width <= s.Readable()
    case ReadInt(width) => 0 < width <= s.Readable()
  }

  function Apply(s: B.Store, staged: nat, op: Op): (next: B.Store)
    requires s.Valid() && Allowed(s, staged, op)
    ensures next.Valid()
  {
    match op
    case Append(data) => B.AppendContents(s, data); B.Append(s, data)
    case Prepend(data) => B.Prepend(s, data)
    case Retrieve(len) => B.Retrieve(s, len)
    case RetrieveAll => B.RetrieveAll(s)
    case Unwrite(len) => B.Unwrite(s, len)
    case EnsureWritable(len) => B.EnsureWritableMakesRoom(s, len); B.EnsureWritable(s, len)
    case Poke(data) => B.Poke(s, data)
    case HasWritten(len) => B.HasWritten(s, len)
    case Shrink(reserve) => B.ShrinkContents(s, reserve); B.Shrink(s, reserve)
    case AppendInt(width, x) => B.AppendContents(s, Encode(width, x)); B.Append(s, Encode(width, x))
    case PrependInt(width, x) => B.Prepend(s, Encode(width, x))
    case PeekInt(_) => s
    case ReadInt(width) => B.Retrieve(s, width)
  }

  // -------------------------------------------------- the plain byte sequence

  /** staged is what foreign code has stored and HasWritten may still claim. */
  datatype Plain = Plain(contents: seq<byte>, staged: seq<byte>)

  predicate PlainAllowed(p: Plain, op: Op) {
    match op
    case Retrieve(len) => len <= |p.contents|
    case Unwrite(len) => len <= |p.contents|
    case HasWritten(len) => len <= |p.staged|
    case AppendInt(width, x) => IsInt(width, x)
    case PrependInt(width, x) => IsInt(width, x)
    case PeekInt(width) => 0 < width <= |p.contents|
    case ReadInt(width) => 0 < width <= |p.contents|
    case _ => true
  }

  function PlainApply(p: Plain, op: Op): Plain
    requires PlainAllowed(p, op)
  {
    match op
    case Append(data) => Plain(p.contents + data, [])
    case Prepend(data) => Plain(data + p.contents, [])
    case Retrieve(len) => Plain(p.contents[len..], [])
    case RetrieveAll => Plain([], [])
    case Unwrite(len) => Plain(p.contents[..|p.contents| - len], [])
    case EnsureWritable(_) => Plain(p.contents, [])
    case Poke(data) => Plain(p.contents, data)
    case HasWritten(len) => Plain(p.contents + p.staged[..len], p.staged[len..])
    case Shrink(_) => Plain(p.contents, [])
    case AppendInt(width, x) => Plain(p.contents + Encode(width, x), [])
    case PrependInt(width, x) => Plain(Encode(width, x) + p.contents, [])
    case PeekInt(_) => p
    case ReadInt(width) => Plain(p.contents[width..], [])
  }

  /** What the caller is told, given the readable bytes. */
  function Answer(contents: seq<byte>, op: Op): seq<int> {
    match op
    case PeekInt(width) => if 0 < width <= |contents| then [Decode(contents[..width])] else []
    case ReadInt(width) => if 0 < width <= |contents| then [Decode(contents[..width])] else []
    case _ => []
  }

  predicate Represents(s: B.Store, p: Plain) {
    && s.Valid()
    && s.Contents() == p.contents
    && |p.staged| <= s.Writable()
    && s.bytes[s.writer..s.writer + |p.staged|] == p.staged
  }

  lemma HasWrittenRefines(s: B.Store, p: Plain, len: nat)
    requires Represents(s, p) && len <= |p.staged|
    ensures Represents(B.HasWritten(s, len), PlainApply(p, HasWritten(len)))
  {
    SliceOfSlice(s.bytes, s.writer, s.writer + |p.staged|, 0, len);
    SliceOfSlice(s.bytes, s.writer, s.writer + |p.staged|, len, |p.staged|);
    assert s.bytes[s.reader..s.writer + len] == s.Contents() + s.bytes[s.writer..s.writer + len];
  }

  lemma PokeRefines(s: B.Store, p: Plain, data: seq<byte>)
    requires Represents(s, p) && |data| <= s.Writable()
    ensures Represents(B.Poke(s, data), PlainApply(p, Poke(data)))
  {
    B.PokeThenHasWritten(s, data, 0);
    assert data[0..] == data;
  }

  lemma StepRefines(s: B.Store, p: Plain, op: Op)
    requires Represents(s, p) && Allowed(s, |p.staged|, op)
    ensures PlainAllowed(p, op)
    ensures Represents(Apply(s, |p.staged|, op), PlainApply(p, op))
  {
    hide B.Append, B.Prepend, B.Retrieve, B.EnsureWritable, B.Shrink, B.Poke, Encode, Decode;
    match op
    case Append(data) => B.AppendContents(s, data);
    case Prepend(data) => B.PrependContents(s, data);
    case Retrieve(len) => B.RetrieveContents(s, len);
    case Unwrite(len) => B.UnwriteContents(s, len);
    case EnsureWritable(len) => B.EnsureWritableMakesRoom(s, len);
    case Poke(data) => PokeRefines(s, p, data);
    case HasWritten(len) => HasWrittenRefines(s, p, len);
    case Shrink(reserve) => B.ShrinkContents(s, reserve);
    case AppendInt(width, x) => B.AppendContents(s, Encode(width, x));
    case PrependInt(width, x) => B.PrependContents(s, Encode(width, x));
    case PeekInt(_) =>
    case ReadInt(width) => B.RetrieveContents(s, width);
    case RetrieveAll =>
  }

  // -------------------------------------------------------------------- runs

  function StagedAfter(staged: nat, op: Op): nat {
    match op
    case Poke(data) => |data|
    case HasWritten(len) => if len <= staged then staged - len else 0
    case PeekInt(_) => staged
    case _ => 0
  }

  ghost predicate Legal(s: B.Store, staged: nat, ops: seq<Op>)
    requires s.Valid()
    decreases |ops|
  {
    ops == [] ||
    (Allowed(s, staged, ops[0]) && Legal(Apply(s, staged, ops[0]), StagedAfter(staged, ops[0]), ops[1..]))
  }

  ghost function Run(s: B.Store, staged: nat, ops: seq<Op>): (B.Store, seq<int>)
    requires s.Valid() && Legal(s, staged, ops)
    decreases |ops|
  {
    if ops == [] then (s, []) else
      var (end, answers) := Run(Apply(s, staged, ops[0]), StagedAfter(staged, ops[0]), ops[1..]);
      (end, Answer(s.Contents(), ops[0]) + answers)
  }

  ghost predicate PlainLegal(p: Plain, ops: seq<Op>)
    decreases |ops|
  {
    ops == [] || (PlainAllowed(p, ops[0]) && PlainLegal(PlainApply(p, ops[0]), ops[1..]))
  }

  ghost function PlainRun(p: Plain, ops: seq<Op>): (Plain, seq<int>)
    requires PlainLegal(p, ops)
    decreases |ops|
  {
    if ops == [] then (p, []) else
      var (end, answers) := PlainRun(PlainApply(p, ops[0]), ops[1..]);
      (end, Answer(p.contents, ops[0]) + answers)
  }

  /**
   Buffer refines a byte sequence: after any run of operations, of any length,
   the readable bytes and every integer handed out are those of the same
   operations on a plain sequence, and the indices are in order.
   */
  lemma {:induction false} RunRefines(s: B.Store, p: Plain, ops: seq<Op>)
    requires Represents(s, p) && Legal(s, |p.staged|, ops)
    ensures PlainLegal(p, ops)
    ensures Represents(Run(s, |p.staged|, ops).0, PlainRun(p, ops).0)
    ensures Run(s, |p.staged|, ops).1 == PlainRun(p, ops).1
    decreases |ops|
  {
    if ops != [] {
      StepRefines(s, p, ops[0]);
      RunRefines(Apply(s, |p.staged|, ops[0]), PlainApply(p, ops[0]), ops[1..]);
    }
  }

  /** Where nothing is prepended or stored from outside, the layout never stands in the way. */
  lemma {:induction false} PlainlyAllowedIsLegal(s: B.Store, p: Plain, ops: seq<Op>)
    requires Represents(s, p) && PlainLegal(p, ops)
    requires forall op :: op in ops ==> !op.Prepend? && !op.PrependInt? && !op.Poke?
    ensures Legal(s, |p.staged|, ops)
    decreases |ops|
  {
    if ops != [] {
      StepRefines(s, p, ops[0]);
      PlainlyAllowedIsLegal(Apply(s, |p.staged|, ops[0]), PlainApply(p, ops[0]), ops[1..]);
    }
  }

  // ------------------------------------------------------------ integer fields

  lemma PrependIntThenRead(s: B.Store, width: nat, x: int)
    requires s.Valid() && IsInt(width, x) && width <= s.reader
    ensures B.Prepend(s, Encode(width, x)).Valid()
    ensures B.Prepend(s, Encode(width, x)).Readable() >= width
    ensures Answer(B.Prepend(s, Encode(width, x)).Contents(), ReadInt(width)) == [x]
    ensures B.Retrieve(B.Prepend(s, Encode(width, x)), width).Contents() == s.Contents()
  {
    hide B.Prepend, B.Retrieve, Encode, Decode;
    var t := B.Prepend(s, Encode(width, x));
    B.PrependContents(s, Encode(width, x));
    B.RetrieveContents(t, width);
    DecodeOfEncode(width, x);
    assert t.Contents()[..width] == Encode(width, x);
  }

  /** An appended integer is what is read once everything before it is retrieved. */
  lemma AppendIntThenRead(s: B.Store, width: nat, x: int)
    requires s.Valid() && IsInt(width, x)
    ensures B.Append(s, Encode(width, x)).Valid()
    ensures B.Append(s, Encode(width, x)).Readable() == s.Readable() + width
    ensures B.Retrieve(B.Append(s, Encode(width, x)), s.Readable()).Valid()
    ensures Answer(B.Retrieve(B.Append(s, Encode(width, x)), s.Readable()).Contents(), ReadInt(width)) == [x]
  {
    hide B.Append, B.Retrieve, Encode, Decode;
    var t := B.Append(s, Encode(width, x));
    B.AppendContents(s, Encode(width, x));
    B.RetrieveContents(t, s.Readable());
    DecodeOfEncode(width, x);
    assert t.Contents()[s.Readable()..] == Encode(width, x);
    assert Encode(width, x)[..width] == Encode(width, x);
  }

  // ------------------------------------------------------------- physical size

  function Reservation(op: Op): nat {
    match op
    case Append(data) => |data|
    case EnsureWritable(len) => len
    case AppendInt(width, _) => width
    case _ => 0
  }

  /** At most maxReadable bytes wait at any time and no reservation exceeds maxReserve. */
  ghost predicate Moderate(s: B.Store, staged: nat, ops: seq<Op>, maxReadable: nat, maxReserve: nat)
    requires s.Valid() && Legal(s, staged, ops)
    decreases |ops|
  {
    && s.Readable() <= maxReadable
    && (ops == [] ||
        (&& !ops[0].Shrink?
         && Reservation(ops[0]) <= maxReserve
         && Moderate(Apply(s, staged, ops[0]), StagedAfter(staged, ops[0]), ops[1..], maxReadable, maxReserve)))
  }

  /**
   The array never outgrows what waits in it by more than two reservations:
   enlarging is chosen only while the dead space in front is below len + 8.
   */
  lemma {:induction false} SizeBounded(s: B.Store, staged: nat, ops: seq<Op>, maxReadable: nat, maxReserve: nat)
    requires s.Valid() && Legal(s, staged, ops)
    requires Moderate(s, staged, ops, maxReadable, maxReserve)
    ensures |Run(s, staged, ops).0.bytes| <= Max(|s.bytes|, maxReadable + 2 * maxReserve + 7)
    decreases |ops|
  {
    if ops != [] {
      StepSize(s, staged, ops[0]);
      SizeBounded(Apply(s, staged, ops[0]), StagedAfter(staged, ops[0]), ops[1..], maxReadable, maxReserve);
    }
  }

  lemma StepSize(s: B.Store, staged: nat, op: Op)
    requires s.Valid() && Allowed(s, staged, op) && !op.Shrink?
    ensures |Apply(s, staged, op).bytes| <= Max(|s.bytes|, s.Readable() + 2 * Reservation(op) + 7)
  {
    hide B.EnsureWritable, B.Shrink, Encode;
    match op
    case Append(data) => B.EnsureWritableMakesRoom(s, |data|);
    case AppendInt(width, x) => B.EnsureWritableMakesRoom(s, width);
    case EnsureWritable(len) => B.EnsureWritableMakesRoom(s, len);
    case _ =>
  }
}
