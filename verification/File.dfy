/** File::writeAll and readAll over a system that transfers less than asked, is interrupted, or fails. */
module Files {
  import opened Basics
  import opened Bytes
  import opened Buffers
  import B = BufferSpec

  /**
   What one system call does: transfer at most limit bytes, or return -1 with EINTR,
   with EAGAIN or EWOULDBLOCK, or with another errno. A schedule that has run out
   transfers everything asked for.
   */
  datatype Outcome = Transfers(limit: nat) | Interrupted | WouldBlock | Fails

  /** The return value of the call, -1 apart. */
  datatype Result = Count(n: nat) | Error(interrupted: bool)

  function Returned(schedule: seq<Outcome>, asked: nat): (r: Result)
    ensures r.Count? ==> r.n <= asked
    ensures r.Error? ==> schedule != []
  {
    if schedule == [] then Count(asked) else
      match schedule[0]
      case Transfers(limit) => Count(Min(limit, asked))
      case Interrupted => Error(true)
      case WouldBlock => Error(false)
      case Fails => Error(false)
  }

  /** Calls go on after a short transfer or an interruption, and end with anything else. */
  predicate Harmless(o: Outcome) {
    (o.Transfers? && o.limit > 0) || o.Interrupted?
  }

  predicate ErrorFree(schedule: seq<Outcome>) {
    forall i :: 0 <= i < |schedule| ==> Harmless(schedule[i])
  }

  /** data written over what stands at offset, and beyond the end of the file. */
  function Overwritten(before: seq<byte>, offset: nat, data: seq<byte>): seq<byte>
    requires offset <= |before|
  {
    if offset + |data| <= |before| then before[..offset] + data + before[offset + |data|..] else before[..offset] + data
  }

  /** A write at any offset: a gap behind the end of the file is filled with zeros. */
  function Patched(before: seq<byte>, offset: nat, data: seq<byte>): seq<byte> {
    if data == [] then before
    else if offset <= |before| then Overwritten(before, offset, data)
    else before + B.Zeros(offset - |before|) + data
  }

  lemma PatchedInside(before: seq<byte>, offset: nat, data: seq<byte>)
    requires offset <= |before|
    ensures Patched(before, offset, data) == Overwritten(before, offset, data)
  {
    assert before[..offset] + [] + before[offset..] == before;
  }

  /** Bytes from offset to the end of the file. */
  function Remaining(contents: seq<byte>, offset: nat): nat {
    if offset <= |contents| then |contents| - offset else 0
  }

  function Window(contents: seq<byte>, offset: nat, n: nat): (w: seq<byte>)
    requires n <= Remaining(contents, offset)
    ensures |w| == n
  {
    if n == 0 then [] else contents[offset..offset + n]
  }

  /** A buffer with data stored at an index. */
  function Placed(buf: seq<byte>, at: nat, data: seq<byte>): (after: seq<byte>)
    requires at + |data| <= |buf|
    ensures |after| == |buf|
  {
    buf[..at] + data + buf[at + |data|..]
  }

  class File {
    var contents: seq<byte>
    const append: bool            // flags_ & APPEND
    var position: nat             // of the descriptor, used by write only
    var schedule: seq<Outcome>    // what the system will do

    constructor (contents: seq<byte>, append: bool, schedule: seq<Outcome>)
      ensures this.contents == contents && this.append == append && this.schedule == schedule && position == 0
    {
      this.contents, this.append, this.schedule, position := contents, append, schedule, 0;
    }

    /** write: at the end of a file opened for appending, else at the position of the descriptor. */
    method Write(data: seq<byte>) returns (r: Result)
      modifies this
      ensures r == Returned(old(schedule), |data|)
      ensures schedule == if old(schedule) == [] then [] else old(schedule)[1..]
      ensures r.Error? ==> contents == old(contents) && position == old(position)
      ensures r.Count? && append ==> contents == old(contents) + data[..r.n]
      ensures r.Count? && !append ==>
        contents == Patched(old(contents), old(position), data[..r.n]) && position == old(position) + r.n
    {
      r := Returned(schedule, |data|);
      schedule := if schedule == [] then [] else schedule[1..];
      if r.Count? {
        var at := if append then |contents| else position;
        contents := if append then contents + data[..r.n] else Patched(contents, position, data[..r.n]);
        position := at + r.n;
      }
    }

    method PWrite(data: seq<byte>, offset: nat) returns (r: Result)
      modifies this
      ensures r == Returned(old(schedule), |data|) && position == old(position)
      ensures schedule == if old(schedule) == [] then [] else old(schedule)[1..]
      ensures contents == if r.Count? then Patched(old(contents), offset, data[..r.n]) else old(contents)
    {
      r := Returned(schedule, |data|);
      schedule := if schedule == [] then [] else schedule[1..];
      if r.Count? {
        contents := Patched(contents, offset, data[..r.n]);
      }
    }

    method PRead(buf: array<byte>, at: nat, n: nat, offset: nat) returns (r: Result)
      requires at + n <= buf.Length
      modifies this`schedule, buf
      ensures r == Returned(old(schedule), Min(n, Remaining(contents, offset)))
      ensures schedule == if old(schedule) == [] then [] else old(schedule)[1..]
      ensures buf[..] == if r.Count? then Placed(old(buf[..]), at, Window(contents, offset, r.n)) else old(buf[..])
    {
      r := Returned(schedule, Min(n, Remaining(contents, offset)));
      schedule := if schedule == [] then [] else schedule[1..];
      if r.Count? {
        CopyBytes(buf, at, Window(contents, offset, r.n));
      }
    }

    method WriteAll(buf: seq<byte>) returns (writeBytes: nat)
      modifies this
      ensures writeBytes == Transferred(old(schedule), |buf|) <= |buf|
      ensures contents ==
        if append then old(contents) + buf[..writeBytes] else Overwritten(old(contents), 0, buf[..writeBytes])
    {
      hide Overwritten, Patched, Returned, Transferred;
      writeBytes := 0;
      NothingWritten(contents, buf);
      while writeBytes < |buf|
        invariant writeBytes <= |buf|
        invariant append ==> contents == old(contents) + buf[..writeBytes]
        invariant !append ==> writeBytes <= |contents| && contents == Overwritten(old(contents), 0, buf[..writeBytes])
        invariant Transferred(old(schedule), |buf|) == writeBytes + Transferred(schedule, |buf| - writeBytes)
        decreases |schedule|, |buf| - writeBytes
      {
        var r;
        ghost var earlier := schedule;
        if append {
          r := Write(buf[writeBytes..]);
        } else {
          ghost var now := contents;
          r := PWrite(buf[writeBytes..], writeBytes);
          if r.Count? {
            PatchedInside(now, writeBytes, buf[writeBytes..][..r.n]);
          }
        }
        TransferredTurn(earlier, |buf| - writeBytes);
        if r.Count? && r.n > 0 {
          WrittenFurther(old(contents), buf, writeBytes, r.n);
          writeBytes := writeBytes + r.n;
        } else if r.Count? {
          WrittenFurther(old(contents), buf, writeBytes, 0);
          break;
        } else if !r.interrupted {
          break;
        }
      }
    }

    method ReadAll(buf: array<byte>, n: nat) returns (readBytes: nat)
      requires n <= buf.Length
      modifies this`schedule, buf
      ensures readBytes == Transferred(old(schedule), Min(n, |contents|)) <= Min(n, |contents|)
      ensures buf[..] == contents[..readBytes] + old(buf[readBytes..])
    {
      hide Returned, Transferred, Placed, Window;
      readBytes := 0;
      ghost var first, total := buf[..], Min(n, |contents|);
      NothingPlaced(first, contents);
      while readBytes < n
        invariant readBytes <= total
        invariant |first| == buf.Length && buf[..] == Placed(first, 0, contents[..readBytes])
        invariant Transferred(old(schedule), total) == readBytes + Transferred(schedule, total - readBytes)
        decreases |schedule|, n - readBytes
      {
        ghost var earlier := schedule;
        var r := PRead(buf, readBytes, n - readBytes, readBytes);
        assert Min(n - readBytes, Remaining(contents, readBytes)) == total - readBytes;
        TransferredTurn(earlier, total - readBytes);
        if r.Count? && r.n > 0 {
          PlacedFurther(first, contents, readBytes, r.n);
          readBytes := readBytes + r.n;
        } else if r.Count? {
          PlacedFurther(first, contents, readBytes, 0);
          break;
        } else if !r.interrupted {
          break;
        }
      }
      PlacedAtFront(first, contents[..readBytes]);
      assert first[readBytes..] == old(buf[readBytes..]);
    }
  }

  /** How many of left bytes the loops move before a call fails or moves nothing. */
  function Transferred(schedule: seq<Outcome>, left: nat): (k: nat)
    ensures k <= left
  {
    if schedule == [] then left else
      match schedule[0]
      case Transfers(limit) =>
        if limit == 0 || left == 0 then 0
        else Min(limit, left) + Transferred(schedule[1..], left - Min(limit, left))
      case Interrupted => Transferred(schedule[1..], left)
      case _ => 0
  }

  /** Short transfers and interruptions, however many, lose nothing. */
  lemma {:induction false} ErrorFreeTransfersAll(schedule: seq<Outcome>, left: nat)
    requires ErrorFree(schedule)
    ensures Transferred(schedule, left) == left
  {
    if schedule != [] {
      var moved := if schedule[0].Transfers? then Min(schedule[0].limit, left) else 0;
      ErrorFreeTransfersAll(schedule[1..], left - moved);
    }
  }

  /** All that a schedule offers to transfer. */
  function Offered(schedule: seq<Outcome>): nat {
    if schedule == [] then 0
    else (if schedule[0].Transfers? then schedule[0].limit else 0) + Offered(schedule[1..])
  }

  /**
   The first call that moves nothing, would block or fails otherwise ends the loop:
   exactly what was offered before it has been moved, whatever would have come after.
   */
  lemma {:induction false} StopsAtFirstError(before: seq<Outcome>, bad: Outcome, after: seq<Outcome>, left: nat)
    requires ErrorFree(before)
    requires bad == Transfers(0) || bad == WouldBlock || bad == Fails
    ensures Transferred(before + [bad] + after, left) == Min(left, Offered(before))
  {
    var schedule := before + [bad] + after;
    if before == [] {
      assert schedule[0] == bad;
    } else {
      assert schedule[1..] == before[1..] + [bad] + after;
      var moved := if before[0].Transfers? then Min(before[0].limit, left) else 0;
      StopsAtFirstError(before[1..], bad, after, left - moved);
      if left == 0 && before[0].Interrupted? {
        assert Transferred(schedule, 0) == 0;
      }
    }
  }

  /** Byte by byte: the data where it was written, zeros in a gap, and otherwise what was there. */
  lemma PatchedAt(before: seq<byte>, offset: nat, data: seq<byte>)
    requires data != []
    ensures var now := Patched(before, offset, data);
      && |now| == (if |before| < offset + |data| then offset + |data| else |before|)
      && forall i :: 0 <= i < |now| ==>
           now[i] == (if offset <= i < offset + |data| then data[i - offset]
                      else if i < |before| then before[i] else 0)
  {
  }

  lemma {:induction false} NothingLeft(schedule: seq<Outcome>)
    ensures Transferred(schedule, 0) == 0
  {
    if schedule != [] && schedule[0].Interrupted? {
      NothingLeft(schedule[1..]);
    }
  }

  /** One turn of either loop. */
  lemma TransferredTurn(schedule: seq<Outcome>, left: nat)
    ensures var rest := if schedule == [] then [] else schedule[1..];
      match Returned(schedule, left)
      case Count(n) => Transferred(schedule, left) == n + (if n == 0 then 0 else Transferred(rest, left - n))
      case Error(interrupted) => Transferred(schedule, left) == if interrupted then Transferred(rest, left) else 0
  {
    NothingLeft([]);
  }

  lemma NothingWritten(before: seq<byte>, buf: seq<byte>)
    ensures before == before + buf[..0] && before == Overwritten(before, 0, buf[..0])
  {
  }

  lemma WrittenFurther(before: seq<byte>, buf: seq<byte>, k: nat, n: nat)
    requires k + n <= |buf|
    ensures before + buf[..k] + buf[k..][..n] == before + buf[..k + n]
    ensures k <= |Overwritten(before, 0, buf[..k])|
    ensures Overwritten(Overwritten(before, 0, buf[..k]), k, buf[k..][..n]) == Overwritten(before, 0, buf[..k + n])
    ensures k + n <= |Overwritten(before, 0, buf[..k + n])|
  {
    var now, more := Overwritten(before, 0, buf[..k]), buf[k..][..n];
    assert buf[..k + n] == buf[..k] + more;
    assert now[..k] == buf[..k];
    assert before + buf[..k] + more == before + (buf[..k] + more);
    if k + n <= |before| {
      assert now[k + n..] == before[k + n..];
    }
  }

  lemma NothingPlaced(first: seq<byte>, contents: seq<byte>)
    ensures Placed(first, 0, contents[..0]) == first
  {
  }

  lemma PlacedAtFront(first: seq<byte>, data: seq<byte>)
    requires |data| <= |first|
    ensures Placed(first, 0, data) == data + first[|data|..]
  {
  }

  lemma PlacedFurther(first: seq<byte>, contents: seq<byte>, k: nat, n: nat)
    requires k + n <= |contents| && k + n <= |first|
    ensures Placed(Placed(first, 0, contents[..k]), k, Window(contents, k, n)) == Placed(first, 0, contents[..k + n])
  {
    assert contents[..k + n] == contents[..k] + Window(contents, k, n);
    var was := Placed(first, 0, contents[..k]);
    assert was[..k] == contents[..k] && was[k + n..] == first[k + n..];
  }

  /**
   Reading back: after a write to the start of a file that took all of data, a readAll of
   as many bytes that meets no error returns data, whatever the file held before.
   */
  lemma ReadBack(before: seq<byte>, data: seq<byte>, schedule: seq<Outcome>)
    requires ErrorFree(schedule)
    ensures var contents := Overwritten(before, 0, data);
      && Transferred(schedule, Min(|data|, |contents|)) == |data| <= |contents|
      && contents[..|data|] == data
      && (forall i :: |data| <= i < |before| ==> i < |contents| && contents[i] == before[i])
  {
    var contents := Overwritten(before, 0, data);
    assert |data| <= |contents|;
    ErrorFreeTransfersAll(schedule, |data|);
  }
}
