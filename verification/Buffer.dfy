/** The class Buffer: a byte array with a reader and a writer index, changed in place. */
module Buffers {
  import opened Bytes
  import B = BufferSpec

  /** std::copy of data to the bytes of a beginning at index at. */
  method CopyBytes(a: array<byte>, at: nat, data: seq<byte>)
    requires at + |data| <= a.Length
    modifies a
    ensures a[..] == old(a[..at]) + data + old(a[at + |data|..])
  {
    ghost var was := a[..];
    for i := 0 to |data|
      invariant forall k :: 0 <= k < a.Length ==>
        a[k] == if at <= k < at + i then data[k - at] else was[k]
    {
      a[at + i] := data[i];
    }
    assert a[..] == was[..at] + data + was[at + |data|..];
  }

  /** The forward std::copy within one array, towards its front; the ranges may overlap. */
  method MoveBytesDown(a: array<byte>, from: nat, to: nat, count: nat)
    requires to <= from && from + count <= a.Length
    modifies a
    ensures a[..] == old(a[..to]) + old(a[from..from + count]) + old(a[to + count..])
  {
    ghost var was := a[..];
    ghost var moved := was[from..from + count];
    for i := 0 to count
      invariant forall k :: 0 <= k < a.Length ==>
        a[k] == if to <= k < to + i then moved[k - to] else was[k]
    {
      assert a[from + i] == was[from + i] == moved[i];
      a[to + i] := a[from + i];
    }
    assert a[..] == was[..to] + was[from..from + count] + was[to + count..];
  }

  class Buffer {
    var buffer: array<byte>
    var readerIndex: nat
    var writerIndex: nat

    /** The object as a value of BufferSpec. */
    ghost function View(): B.Store
      reads this, buffer
    {
      B.Store(buffer[..], readerIndex, writerIndex)
    }

    ghost predicate Valid()
      reads this, buffer
    {
      View().Valid()
    }

    ghost function Contents(): seq<byte>
      reads this, buffer
      requires Valid()
    {
      View().Contents()
    }

    constructor (initialSize: nat)
      ensures Valid() && fresh(buffer)
      ensures View() == B.Fresh(initialSize)
      ensures Contents() == []
    {
      buffer := new byte[B.CHEAP_PREPEND + initialSize](_ => 0);
      readerIndex, writerIndex := B.CHEAP_PREPEND, B.CHEAP_PREPEND;
      new;
      assert buffer[..] == B.Zeros(B.CHEAP_PREPEND + initialSize);
    }

    function ReadableBytes(): (n: nat)
      reads this, buffer
      requires Valid()
      ensures n == |Contents()|
    {
      writerIndex - readerIndex
    }

    function WritableBytes(): (n: nat)
      reads this, buffer
      requires Valid()
      ensures n == View().Writable()
    {
      buffer.Length - writerIndex
    }

    function PrependableBytes(): (n: nat)
      reads this, buffer
      requires Valid()
      ensures n + |Contents()| + WritableBytes() == buffer.Length
    {
      readerIndex
    }

    method Swap(rhs: Buffer)
      requires Valid() && rhs.Valid()
      modifies this, rhs
      ensures Valid() && rhs.Valid()
      ensures View() == old(rhs.View()) && rhs.View() == old(View())
      ensures buffer == old(rhs.buffer) && rhs.buffer == old(buffer)
    {
      buffer, rhs.buffer := rhs.buffer, buffer;
      readerIndex, rhs.readerIndex := rhs.readerIndex, readerIndex;
      writerIndex, rhs.writerIndex := rhs.writerIndex, writerIndex;
    }

    method RetrieveAll()
      requires Valid()
      modifies this
      ensures Valid() && buffer == old(buffer)
      ensures View() == B.RetrieveAll(old(View()))
      ensures Contents() == []
    {
      readerIndex := B.CHEAP_PREPEND;
      writerIndex := B.CHEAP_PREPEND;
    }

    method Retrieve(len: nat)
      requires Valid() && len <= ReadableBytes()
      modifies this
      ensures Valid() && buffer == old(buffer)
      ensures View() == B.Retrieve(old(View()), len)
      ensures Contents() == old(Contents())[len..]
    {
      B.RetrieveContents(View(), len);
      if len < ReadableBytes() {
        readerIndex := readerIndex + len;
      } else {
        RetrieveAll();
      }
    }

    /** end is the address up to which to retrieve, as an index into the array. */
    method RetrieveUntil(end: nat)
      requires Valid() && readerIndex <= end <= writerIndex
      modifies this
      ensures Valid() && buffer == old(buffer)
      ensures Contents() == old(buffer[end..writerIndex])
    {
      Retrieve(end - readerIndex);
    }

    method RetrieveAsString(len: nat) returns (result: seq<byte>)
      requires Valid() && len <= ReadableBytes()
      modifies this
      ensures Valid() && buffer == old(buffer)
      ensures View() == B.Retrieve(old(View()), len)
      ensures result + Contents() == old(Contents()) && |result| == len
    {
      result := buffer[readerIndex..readerIndex + len];
      SliceOfSlice(buffer[..], readerIndex, writerIndex, 0, len);
      assert Contents() == Contents()[..len] + Contents()[len..];
      Retrieve(len);
    }

    method RetrieveAllAsString() returns (result: seq<byte>)
      requires Valid()
      modifies this
      ensures Valid() && buffer == old(buffer)
      ensures View() == B.RetrieveAll(old(View()))
      ensures result == old(Contents())
    {
      result := RetrieveAsString(ReadableBytes());
    }

    /** std::vector::resize to a larger size: old bytes kept, new ones zero. */
    method Enlarge(len: nat)
      requires Valid() && WritableBytes() < len
      modifies this
      ensures Valid() && fresh(buffer)
      ensures View() == B.Enlarged(old(View()), len)
    {
      ghost var was := View();
      var bigger := new byte[writerIndex + len](_ => 0);
      CopyBytes(bigger, 0, buffer[..]);
      buffer := bigger;
      assert buffer[..] == was.bytes + B.Zeros(len - was.Writable());
    }

    method Compact()
      requires Valid() && B.CHEAP_PREPEND < readerIndex
      modifies this, buffer
      ensures Valid() && buffer == old(buffer)
      ensures View() == B.Compacted(old(View()))
    {
      var readable := ReadableBytes();
      MoveBytesDown(buffer, readerIndex, B.CHEAP_PREPEND, readable);
      readerIndex := B.CHEAP_PREPEND;
      writerIndex := readerIndex + readable;
    }

    method MakeSpace(len: nat)
      requires Valid() && WritableBytes() < len
      modifies this, buffer
      ensures Valid() && (buffer == old(buffer) || fresh(buffer))
      ensures View() == B.MakeSpace(old(View()), len)
      ensures readerIndex == old(readerIndex) || readerIndex == B.CHEAP_PREPEND
      ensures WritableBytes() >= len && Contents() == old(Contents())
    {
      B.EnsureWritableMakesRoom(View(), len);
      if WritableBytes() + PrependableBytes() < len + B.CHEAP_PREPEND {
        Enlarge(len);
      } else {
        assert B.CHEAP_PREPEND < readerIndex;
        Compact();
      }
    }

    method EnsureWritableBytes(len: nat)
      requires Valid()
      modifies this, buffer
      ensures Valid() && (buffer == old(buffer) || fresh(buffer))
      ensures View() == B.EnsureWritable(old(View()), len)
      ensures readerIndex == old(readerIndex) || readerIndex == B.CHEAP_PREPEND
      ensures WritableBytes() >= len && Contents() == old(Contents())
    {
      if WritableBytes() < len {
        MakeSpace(len);
      }
    }

    /** Foreign code filling the writable part through the pointer beginWrite(). */
    method StoreAtBeginWrite(data: seq<byte>)
      requires Valid() && |data| <= WritableBytes()
      modifies buffer
      ensures Valid()
      ensures View() == B.Poke(old(View()), data)
      ensures Contents() == old(Contents())
    {
      hide B.Zeros;
      B.PokeThenHasWritten(View(), data, |data|);
      CopyBytes(buffer, writerIndex, data);
    }

    method HasWritten(len: nat)
      requires Valid() && len <= WritableBytes()
      modifies this
      ensures Valid() && buffer == old(buffer)
      ensures View() == B.HasWritten(old(View()), len)
      ensures Contents() == old(Contents()) + old(buffer[writerIndex..writerIndex + len])
    {
      writerIndex := writerIndex + len;
    }

    /** Foreign code stores data at beginWrite() and the caller reports it with hasWritten. */
    method Receive(data: seq<byte>)
      requires Valid() && |data| <= WritableBytes()
      modifies this, buffer
      ensures Valid() && buffer == old(buffer)
      ensures View() == B.HasWritten(B.Poke(old(View()), data), |data|)
      ensures readerIndex == old(readerIndex)
      ensures Contents() == old(Contents()) + data
    {
      B.PokeThenHasWritten(View(), data, |data|);
      assert data[..|data|] == data;
      StoreAtBeginWrite(data);
      HasWritten(|data|);
    }

    method Unwrite(len: nat)
      requires Valid() && len <= ReadableBytes()
      modifies this
      ensures Valid() && buffer == old(buffer)
      ensures View() == B.Unwrite(old(View()), len)
      ensures Contents() == old(Contents()[..|Contents()| - len])
    {
      B.UnwriteContents(View(), len);
      writerIndex := writerIndex - len;
    }

    method Append(data: seq<byte>)
      requires Valid()
      modifies this, buffer
      ensures Valid() && (buffer == old(buffer) || fresh(buffer))
      ensures View() == B.Append(old(View()), data)
      ensures readerIndex == old(readerIndex) || readerIndex == B.CHEAP_PREPEND
      ensures Contents() == old(Contents()) + data
    {
      B.AppendContents(View(), data);
      B.EnsureWritableMakesRoom(View(), |data|);
      EnsureWritableBytes(|data|);
      Receive(data);
    }

    method Prepend(data: seq<byte>)
      requires Valid() && |data| <= PrependableBytes()
      modifies this, buffer
      ensures Valid() && buffer == old(buffer)
      ensures View() == B.Prepend(old(View()), data)
      ensures Contents() == data + old(Contents())
    {
      B.PrependContents(View(), data);
      readerIndex := readerIndex - |data|;
      CopyBytes(buffer, readerIndex, data);
    }

    method Shrink(reserve: nat)
      requires Valid()
      modifies this
      ensures Valid() && fresh(buffer)
      ensures View() == B.Shrink(old(View()), reserve)
      ensures Contents() == old(Contents()) && WritableBytes() >= reserve
    {
      hide B.Append, B.EnsureWritable, B.Fresh, B.Shrink;
      ShrinkIs(View(), reserve);
      B.ShrinkContents(View(), reserve);
      var other := new Buffer(B.INITIAL_SIZE);
      other.EnsureWritableBytes(ReadableBytes() + reserve);
      other.Append(buffer[readerIndex..writerIndex]);
      Swap(other);
    }

    static lemma ShrinkIs(s: B.Store, reserve: nat)
      requires s.Valid()
      ensures B.EnsureWritable(B.Fresh(B.INITIAL_SIZE), s.Readable() + reserve).Valid()
      ensures B.Shrink(s, reserve) ==
        B.Append(B.EnsureWritable(B.Fresh(B.INITIAL_SIZE), s.Readable() + reserve), s.Contents())
    {
      hide B.Append, B.EnsureWritable, B.Fresh;
      B.EnsureWritableMakesRoom(B.Fresh(B.INITIAL_SIZE), s.Readable() + reserve);
    }

    // ------------------------------------------------------- integer fields

    method AppendInt(width: nat, x: int)
      requires Valid() && width > 0 && FitsSigned(width, x)
      modifies this, buffer
      ensures Valid() && (buffer == old(buffer) || fresh(buffer))
      ensures View() == B.Append(old(View()), Encode(width, x))
      ensures readerIndex == old(readerIndex) || readerIndex == B.CHEAP_PREPEND
      ensures Contents() == old(Contents()) + Encode(width, x)
    {
      Append(Encode(width, x));
    }

    method PrependInt(width: nat, x: int)
      requires Valid() && width > 0 && FitsSigned(width, x) && width <= PrependableBytes()
      modifies this, buffer
      ensures Valid() && buffer == old(buffer)
      ensures View() == B.Prepend(old(View()), Encode(width, x))
      ensures Contents() == Encode(width, x) + old(Contents())
    {
      Prepend(Encode(width, x));
    }

    function PeekInt(width: nat): (x: int)
      reads this, buffer
      requires Valid() && 0 < width <= ReadableBytes()
      ensures FitsSigned(width, x)
      ensures Contents()[..width] == Encode(width, x)
    {
      var field := buffer[readerIndex..readerIndex + width];
      EncodeOfDecode(field);
      SliceOfSlice(buffer[..], readerIndex, writerIndex, 0, width);
      Decode(field)
    }

    method ReadInt(width: nat) returns (x: int)
      requires Valid() && 0 < width <= ReadableBytes()
      modifies this
      ensures Valid() && buffer == old(buffer)
      ensures View() == B.Retrieve(old(View()), width)
      ensures FitsSigned(width, x)
      ensures old(Contents()) == Encode(width, x) + Contents()
    {
      x := PeekInt(width);
      Retrieve(width);
    }
  }
}
