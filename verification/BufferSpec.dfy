/**
 The memory layout of Buffer as a value, and what each operation does to it.
 The class in Buffer.dfy is proved against these functions; the results about
 whole runs are proved here.
 */
module BufferSpec {
  import opened Basics
  import opened Bytes

  const CHEAP_PREPEND: nat := 8
  const INITIAL_SIZE: nat := 1024

  /** bytes is the whole vector; the readable part lies between the two indices. */
  datatype Store = Store(bytes: seq<byte>, reader: nat, writer: nat) {
    predicate Valid() {
      reader <= writer <= |bytes| && CHEAP_PREPEND <= |bytes|
    }

    function Readable(): nat
      requires Valid()
    {
      writer - reader
    }

    function Writable(): nat
      requires Valid()
    {
      |bytes| - writer
    }

    function Contents(): seq<byte>
      requires Valid()
    {
      bytes[reader..writer]
    }
  }

  function Zeros(n: nat): (z: seq<byte>)
    ensures |z| == n
  {
    seq(n, _ => 0)
  }

  function Fresh(initialSize: nat): (s: Store)
    ensures s.Valid() && s.Contents() == []
  {
    Store(Zeros(CHEAP_PREPEND + initialSize), CHEAP_PREPEND, CHEAP_PREPEND)
  }

  // ---------------------------------------------------------------- operations

  function RetrieveAll(s: Store): Store {
    s.(reader := CHEAP_PREPEND, writer := CHEAP_PREPEND)
  }

  function Retrieve(s: Store, len: nat): Store
    requires s.Valid() && len <= s.Readable()
  {
    if len < s.Readable() then s.(reader := s.reader + len) else RetrieveAll(s)
  }

  /** The vector is enlarged (true) or its readable part is moved to the front (false). */
  predicate Grows(s: Store, len: nat)
    requires s.Valid()
  {
    s.Writable() + s.reader < len + CHEAP_PREPEND
  }

  function Enlarged(s: Store, len: nat): Store
    requires s.Valid() && s.Writable() < len
  {
    s.(bytes := s.bytes + Zeros(len - s.Writable()))
  }

  function Compacted(s: Store): Store
    requires s.Valid() && CHEAP_PREPEND < s.reader
  {
    var end := CHEAP_PREPEND + s.Readable();
    Store(s.bytes[..CHEAP_PREPEND] + s.Contents() + s.bytes[end..], CHEAP_PREPEND, end)
  }

  function MakeSpace(s: Store, len: nat): Store
    requires s.Valid() && s.Writable() < len
  {
    if Grows(s, len) then Enlarged(s, len) else Compacted(s)
  }

  function EnsureWritable(s: Store, len: nat): Store
    requires s.Valid()
  {
    if s.Writable() < len then MakeSpace(s, len) else s
  }

  /** Foreign code stores data at beginWrite() without telling the buffer. */
  function Poke(s: Store, data: seq<byte>): Store
    requires s.Valid() && |data| <= s.Writable()
  {
    s.(bytes := s.bytes[..s.writer] + data + s.bytes[s.writer + |data|..])
  }

  function HasWritten(s: Store, len: nat): Store
    requires s.Valid() && len <= s.Writable()
  {
    s.(writer := s.writer + len)
  }

  function Unwrite(s: Store, len: nat): Store
    requires s.Valid() && len <= s.Readable()
  {
    s.(writer := s.writer - len)
  }

  function Append(s: Store, data: seq<byte>): Store
    requires s.Valid()
  {
    var room := EnsureWritable(s, |data|);
    EnsureWritableMakesRoom(s, |data|);
    HasWritten(Poke(room, data), |data|)
  }

  function Prepend(s: Store, data: seq<byte>): Store
    requires s.Valid() && |data| <= s.reader
  {
    var at := s.reader - |data|;
    s.(bytes := s.bytes[..at] + data + s.bytes[s.reader..], reader := at)
  }

  function Shrink(s: Store, reserve: nat): Store
    requires s.Valid()
  {
    EnsureWritableMakesRoom(Fresh(INITIAL_SIZE), s.Readable() + reserve);
    Append(EnsureWritable(Fresh(INITIAL_SIZE), s.Readable() + reserve), s.Contents())
  }

  // ------------------------------------------------- what the operations mean

  /**
   A reservation always succeeds and moves no readable byte out of sight: the
   compaction branch is entered only with more than eight dead bytes in front,
   so the assertion in makeSpace cannot fail.
   */
  lemma EnsureWritableMakesRoom(s: Store, len: nat)
    requires s.Valid()
    ensures s.Writable() < len && !Grows(s, len) ==> CHEAP_PREPEND < s.reader
    ensures EnsureWritable(s, len).Valid()
    ensures EnsureWritable(s, len).Writable() >= len
    ensures EnsureWritable(s, len).Contents() == s.Contents()
    ensures EnsureWritable(s, len).reader == s.reader || EnsureWritable(s, len).reader == CHEAP_PREPEND
    ensures s.Writable() < len && Grows(s, len) ==> |EnsureWritable(s, len).bytes| == s.writer + len
    ensures !(s.Writable() < len && Grows(s, len)) ==> |EnsureWritable(s, len).bytes| == |s.bytes|
  {
  }

  lemma PokeThenHasWritten(s: Store, data: seq<byte>, len: nat)
    requires s.Valid() && len <= |data| <= s.Writable()
    ensures Poke(s, data).Valid()
    ensures Poke(s, data).Contents() == s.Contents()
    ensures HasWritten(Poke(s, data), len).Contents() == s.Contents() + data[..len]
    ensures Poke(s, data).bytes[s.writer + len..s.writer + |data|] == data[len..]
  {
  }

  lemma AppendContents(s: Store, data: seq<byte>)
    requires s.Valid()
    ensures Append(s, data).Valid()
    ensures Append(s, data).Contents() == s.Contents() + data
    ensures Append(s, data).reader == s.reader || Append(s, data).reader == CHEAP_PREPEND
  {
    EnsureWritableMakesRoom(s, |data|);
    PokeThenHasWritten(EnsureWritable(s, |data|), data, |data|);
    assert data[..|data|] == data;
  }

  lemma PrependContents(s: Store, data: seq<byte>)
    requires s.Valid() && |data| <= s.reader
    ensures Prepend(s, data).Valid()
    ensures Prepend(s, data).Contents() == data + s.Contents()
  {
    var rest := s.bytes[s.reader..];
    assert Prepend(s, data).bytes[s.reader - |data|..] == data + rest;
    assert rest[..s.Readable()] == s.Contents();
    assert (data + rest)[..|data| + s.Readable()] == data + rest[..s.Readable()];
  }

  lemma RetrieveContents(s: Store, len: nat)
    requires s.Valid() && len <= s.Readable()
    ensures Retrieve(s, len).Valid()
    ensures Retrieve(s, len).Contents() == s.Contents()[len..]
  {
    SliceOfSlice(s.bytes, s.reader, s.writer, len, s.Readable());
  }

  /** now is what was becomes when bytes are retrieved from it, in one go or in several. */
  predicate OnlyRetrieved(was: Store, now: Store) {
    && was.Valid() && now.Valid() && now.Readable() <= was.Readable()
    && (was.Readable() == 0 ==> now == was)
    && (was.Readable() != 0 ==> now == Retrieve(was, was.Readable() - now.Readable()))
  }

  /**
   An append leaves the readable bytes where they are, in the same array, exactly if they
   leave room for the data; a write that was given their address depends on it.
   */
  lemma AppendInPlaceIff(s: Store, data: seq<byte>)
    requires s.Valid()
    ensures |Append(s, data).bytes| == |s.bytes| && Append(s, data).reader == s.reader <==> |data| <= s.Writable()
    ensures |data| <= s.Writable() ==> Append(s, data).bytes[..s.writer] == s.bytes[..s.writer]
  {
    EnsureWritableMakesRoom(s, |data|);
  }

  /** A new buffer: eight prependable bytes, the size asked for writable, all of them zero. */
  lemma FreshLayout(initialSize: nat)
    ensures var s := Fresh(initialSize);
      && s.reader == s.writer == 8 && |s.bytes| == 8 + initialSize && s.Writable() == initialSize
      && forall i :: 0 <= i < |s.bytes| ==> s.bytes[i] == 0
    ensures |Fresh(INITIAL_SIZE).bytes| == 1032
  {
  }

  /**
   The array is enlarged, by zeros at its end, exactly if free and dead bytes together are
   fewer than len + 8; if only the free ones are too few, the readable bytes move to eight.
   */
  lemma EnlargedIff(s: Store, len: nat)
    requires s.Valid()
    ensures var t := EnsureWritable(s, len);
      && (|t.bytes| != |s.bytes| <==> s.Writable() < len && s.Writable() + s.reader < len + 8)
      && (|t.bytes| != |s.bytes| ==>
            && t.bytes[..|s.bytes|] == s.bytes && t.reader == s.reader && t.writer == s.writer
            && forall i :: |s.bytes| <= i < |t.bytes| ==> t.bytes[i] == 0)
      && (s.Writable() >= len ==> t == s)
      && (|t.bytes| == |s.bytes| && s.Writable() < len ==> t.reader == 8 && t.writer == 8 + s.Readable())
  {
    EnsureWritableMakesRoom(s, len);
  }

  /** Whoever retrieves everything finds both indices at eight again. */
  lemma RetrieveResets(s: Store, len: nat)
    requires s.Valid() && len <= s.Readable()
    ensures len == s.Readable() ==> Retrieve(s, len) == RetrieveAll(s) == s.(reader := 8, writer := 8)
    ensures len < s.Readable() ==> Retrieve(s, len).writer == s.writer && Retrieve(s, len).reader == s.reader + len
    ensures Retrieve(s, len).bytes == s.bytes
  {
  }

  lemma NothingRetrieved(s: Store)
    requires s.Valid()
    ensures OnlyRetrieved(s, s)
  {
  }

  lemma RetrievedFurther(was: Store, now: Store, len: nat)
    requires OnlyRetrieved(was, now) && 0 < len <= now.Readable()
    ensures OnlyRetrieved(was, Retrieve(now, len))
  {
  }

  lemma UnwriteContents(s: Store, len: nat)
    requires s.Valid() && len <= s.Readable()
    ensures Unwrite(s, len).Valid()
    ensures Unwrite(s, len).Contents() == s.Contents()[..s.Readable() - len]
  {
    SliceOfSlice(s.bytes, s.reader, s.writer, 0, s.Readable() - len);
  }

  lemma ShrinkContents(s: Store, reserve: nat)
    requires s.Valid()
    ensures Shrink(s, reserve).Valid()
    ensures Shrink(s, reserve).Contents() == s.Contents()
    ensures Shrink(s, reserve).Writable() >= reserve
    ensures |Shrink(s, reserve).bytes| == CHEAP_PREPEND + Max(INITIAL_SIZE, s.Readable() + reserve)
  {
    var room := EnsureWritable(Fresh(INITIAL_SIZE), s.Readable() + reserve);
    EnsureWritableMakesRoom(Fresh(INITIAL_SIZE), s.Readable() + reserve);
    AppendContents(room, s.Contents());
    assert [] + s.Contents() == s.Contents();
  }
}
