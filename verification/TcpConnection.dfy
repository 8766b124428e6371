/** The class TcpConnection: its handlers change state_ and the two Buffers in place. */
module Connections {
  import opened Bytes
  import opened ConnectionStates
  import opened Buffers
  import B = BufferSpec
  import Out = SendSide
  import In = ReadSide
  import P = ProtobufCodec
  import PS = ProtobufStream

  /** The two ways connectionCallback_ is called. */
  datatype Notice = Up | Down

  class TcpConnection {
    var state: State
    const inputBuffer: Buffer
    const outputBuffer: Buffer
    var writes: seq<Out.Write>     // async_write operations outstanding
    var pending: In.Read           // the async_read outstanding
    var tasks: seq<Out.Task>       // posted to loop_ by other threads
    var calls: seq<Out.Call>       // on other threads, between their test of state_ and their act
    var shutdowns: nat             // calls of socket_.shutdown(shutdown_send)
    var notices: seq<Notice>       // calls of connectionCallback_
    var closes: nat                // calls of closeCallback_
    ghost var accepted: seq<byte>
    ghost var confirmed: nat
    ghost var wire: seq<byte>
    ghost var failed: bool
    ghost var limit: Out.Limit
    ghost var stream: seq<byte>
    ghost var seen: seq<seq<byte>>

    ghost predicate Valid()
      reads this, inputBuffer, outputBuffer, inputBuffer.buffer, outputBuffer.buffer
    {
      && inputBuffer != outputBuffer && inputBuffer.buffer != outputBuffer.buffer
      && inputBuffer.Valid() && outputBuffer.Valid()
    }

    ghost function Sender(): Out.Sender
      reads this, outputBuffer, outputBuffer.buffer
      requires outputBuffer.Valid()
    {
      Out.Sender(state, outputBuffer.Contents(), writes, tasks, calls, shutdowns,
                 accepted, confirmed, wire, failed, limit)
    }

    ghost function Reader(): In.Reader
      reads this, inputBuffer, inputBuffer.buffer
    {
      In.Reader(inputBuffer.View(), pending, stream, seen)
    }

    constructor ()
      ensures Valid() && fresh(inputBuffer) && fresh(outputBuffer)
      ensures fresh(inputBuffer.buffer) && fresh(outputBuffer.buffer)
      ensures Sender() == Out.INITIAL && Reader() == In.INITIAL
      ensures notices == [] && closes == 0
    {
      inputBuffer := new Buffer(B.INITIAL_SIZE);
      outputBuffer := new Buffer(B.INITIAL_SIZE);
      state, writes, pending, tasks, calls, shutdowns := Connecting, [], In.Idle, [], [], 0;
      notices, closes := [], 0;
      accepted, confirmed, wire, failed, limit := [], 0, [], false, Out.NoLimit;
      stream, seen := [], [];
    }

    // ------------------------------------------------------------- lifecycle

    method ConnectEstablished()
      requires Valid() && state == Connecting
      modifies this
      ensures Valid() && Sender() == Out.Establish(old(Sender())) && Reader() == In.ReadHeader(old(Reader()))
      ensures notices == old(notices) + [Up] && closes == old(closes)
    {
      state := Connected;
      notices := notices + [Up];
      ReadHeader();
    }

    method ConnectDestroyed()
      requires Valid()
      modifies this
      ensures Valid() && Reader() == old(Reader()) && closes == old(closes)
      ensures Sender() == if old(state) == Connected then Out.Close(old(Sender())) else old(Sender())
      ensures notices == old(notices) + if old(state) == Connected then [Down] else []
    {
      if state == Connected {
        state := Disconnected;
        notices := notices + [Down];
      }
    }

    method HandleClose()
      requires Valid() && (state == Connected || state == Disconnecting)
      modifies this
      ensures Valid() && Sender() == Out.Close(old(Sender())) && Reader() == old(Reader())
      ensures notices == old(notices) + [Down] && closes == old(closes) + 1
    {
      state := Disconnected;
      notices := notices + [Down];
      closes := closes + 1;
    }

    // ---------------------------------------------------------------- output

    method Write()
      requires Valid()
      modifies this
      ensures Valid() && Sender() == Out.StartWrite(old(Sender())) && Reader() == old(Reader())
      ensures notices == old(notices) && closes == old(closes)
    {
      writes := writes + [Out.Write(outputBuffer.buffer[outputBuffer.readerIndex..outputBuffer.writerIndex], 0)];
    }

    method SendInThisThread(str: seq<byte>)
      requires Valid()
      modifies this, outputBuffer, outputBuffer.buffer
      ensures Valid() && (outputBuffer.buffer == old(outputBuffer.buffer) || fresh(outputBuffer.buffer))
      ensures Sender() == Out.SendInThisThread(old(Sender()), str) && Reader() == old(Reader())
      ensures notices == old(notices) && closes == old(closes)
    {
      hide B.Append;
      if state == Disconnected {
        return;
      }
      var writeInProgress := outputBuffer.ReadableBytes() == 0;
      outputBuffer.Append(str);
      accepted := accepted + str;
      if writeInProgress {
        Write();
      }
    }

    /**
     send(Buffer*): the caller's buffer is emptied only if the connection takes its bytes.
     A message callback that echoes passes the input buffer itself. On another thread,
     with nothing coming between the test and the post.
     */
    method Send(buf: Buffer, inLoopThread: bool)
      requires Valid() && buf.Valid() && buf != outputBuffer && buf.buffer != outputBuffer.buffer
      requires buf == inputBuffer || buf.buffer != inputBuffer.buffer
      modifies this, outputBuffer, outputBuffer.buffer, buf
      ensures Valid() && buf.Valid()
      ensures outputBuffer.buffer == old(outputBuffer.buffer) || fresh(outputBuffer.buffer)
      ensures buf.Contents() == if old(state) == Connected then [] else old(buf.Contents())
      ensures Sender() ==
        if inLoopThread then Out.SendOnLoop(old(Sender()), old(buf.Contents()))
        else Out.SendFromElsewhere(old(Sender()), old(buf.Contents()))
      ensures Reader() ==
        if buf == inputBuffer && old(state) == Connected
        then old(Reader()).(store := B.RetrieveAll(old(inputBuffer.View()))) else old(Reader())
      ensures notices == old(notices) && closes == old(closes)
    {
      hide Out.SendInThisThread;
      if state == Connected {
        var message := buf.RetrieveAllAsString();
        if inLoopThread {
          SendInThisThread(message);
        } else {
          tasks := tasks + [Out.SendTask(message)];
        }
      }
    }

    /** On another thread, send up to its test of state_. */
    method TestToSend(message: seq<byte>)
      requires Valid()
      modifies this
      ensures Valid() && Sender() == Out.Tested(old(Sender()), Out.Sending(message)) && Reader() == old(Reader())
      ensures notices == old(notices) && closes == old(closes)
    {
      if state == Connected {
        calls := calls + [Out.Sending(message)];
      }
    }

    /** On another thread, shutdown up to its test of state_. */
    method TestToShutdown()
      requires Valid()
      modifies this
      ensures Valid() && Sender() == Out.Tested(old(Sender()), Out.Stopping) && Reader() == old(Reader())
      ensures notices == old(notices) && closes == old(closes)
    {
      if state == Connected {
        calls := calls + [Out.Stopping];
      }
    }

    /** The next thing that call does: post its send, set state_, or post the shutdown. */
    method ActOnCall(i: nat)
      requires Valid() && i < |calls|
      modifies this
      ensures Valid() && Sender() == Out.Act(old(Sender()), i) && Reader() == old(Reader())
      ensures notices == old(notices) && closes == old(closes)
    {
      match calls[i]
      case Sending(message) =>
        tasks := tasks + [Out.SendTask(message)];
        calls := calls[..i] + calls[i + 1..];
      case Stopping =>
        state := Disconnecting;
        limit := if limit == Out.NoLimit then Out.Limit(|accepted|) else limit;
        calls := calls[i := Out.Posting];
      case Posting =>
        tasks := tasks + [Out.ShutdownTask];
        calls := calls[..i] + calls[i + 1..];
    }

    method ShutdownInThisThread()
      requires Valid()
      modifies this
      ensures Valid() && Sender() == Out.ShutdownInThisThread(old(Sender())) && Reader() == old(Reader())
      ensures notices == old(notices) && closes == old(closes)
    {
      if outputBuffer.ReadableBytes() == 0 {
        shutdowns := shutdowns + 1;
      }
    }

    /** On another thread, with nothing coming between the test, the set and the post. */
    method Shutdown(inLoopThread: bool)
      requires Valid()
      modifies this
      ensures Valid() && Reader() == old(Reader()) && notices == old(notices) && closes == old(closes)
      ensures Sender() ==
        if inLoopThread then Out.ShutdownOnLoop(old(Sender())) else Out.ShutdownFromElsewhere(old(Sender()))
    {
      if state == Connected {
        state := Disconnecting;
        limit := if limit == Out.NoLimit then Out.Limit(|accepted|) else limit;
        if inLoopThread {
          ShutdownInThisThread();
        } else {
          tasks := tasks + [Out.ShutdownTask];
        }
      }
    }

    /** The loop runs the next task posted to it. */
    method RunPosted()
      requires Valid() && tasks != []
      modifies this, outputBuffer, outputBuffer.buffer
      ensures Valid() && (outputBuffer.buffer == old(outputBuffer.buffer) || fresh(outputBuffer.buffer))
      ensures Sender() == Out.RunTask(old(Sender())) && Reader() == old(Reader())
      ensures notices == old(notices) && closes == old(closes)
    {
      hide Out.SendInThisThread;
      var task := tasks[0];
      tasks := tasks[1..];
      match task
      case SendTask(data) => SendInThisThread(data);
      case ShutdownTask => ShutdownInThisThread();
    }

    /** The environment: the kernel takes n more bytes of an outstanding write. */
    method KernelTakes(w: nat, n: nat)
      requires Valid() && w < |writes| && writes[w].sent + n <= |writes[w].snapshot|
      modifies this
      ensures Valid() && Sender() == Out.Transmit(old(Sender()), w, n) && Reader() == old(Reader())
      ensures notices == old(notices) && closes == old(closes)
    {
      var write := writes[w];
      wire := wire + write.snapshot[write.sent..write.sent + n];
      writes := writes[w := write.(sent := write.sent + n)];
    }

    /** The handler of write() without error. */
    method OnWritten(w: nat)
      requires Valid() && w < |writes| && writes[w].sent <= outputBuffer.ReadableBytes()
      modifies this, outputBuffer
      ensures Valid() && outputBuffer.buffer == old(outputBuffer.buffer)
      ensures Sender() == Out.Complete(old(Sender()), w) && Reader() == old(Reader())
      ensures notices == old(notices) && closes == old(closes)
    {
      hide B.Retrieve;
      var byte := writes[w].sent;
      writes := writes[..w] + writes[w + 1..];
      outputBuffer.Retrieve(byte);
      confirmed := confirmed + byte;
      if outputBuffer.ReadableBytes() != 0 {
        Write();
      } else if state == Disconnecting {
        ShutdownInThisThread();
      }
    }

    method OnWriteFailed(w: nat)
      requires Valid() && w < |writes|
      modifies this
      ensures Valid() && Sender() == Out.Fail(old(Sender()), w) && Reader() == old(Reader())
      ensures notices == old(notices) && closes == old(closes)
    {
      writes := writes[..w] + writes[w + 1..];
      failed := true;
    }

    // ----------------------------------------------------------------- input

    method ReadHeader()
      requires Valid()
      modifies this
      ensures Valid() && Sender() == old(Sender()) && Reader() == In.ReadHeader(old(Reader()))
      ensures notices == old(notices) && closes == old(closes) && state == old(state)
    {
      pending := In.HeaderRead;
    }

    /** Either read handler with an error: no further read is issued. */
    method OnReadError()
      requires Valid() && pending != In.Idle && (state == Connected || state == Disconnecting)
      modifies this
      ensures Valid() && Sender() == Out.Close(old(Sender())) && Reader() == old(Reader()).(pending := In.Idle)
      ensures notices == old(notices) + [Down] && closes == old(closes) + 1
    {
      pending := In.Idle;
      HandleClose();
    }

    /** The handler of readHeader() without error. */
    method OnHeader(data: seq<byte>)
      requires Valid() && In.Possible(Reader(), In.Header(data)) && In.Sane(Reader(), In.Header(data))
      modifies this, inputBuffer, inputBuffer.buffer
      ensures Valid() && (inputBuffer.buffer == old(inputBuffer.buffer) || fresh(inputBuffer.buffer))
      ensures Reader() == In.Apply(old(Reader()), In.Header(data)) && Sender() == old(Sender())
      ensures notices == old(notices) && closes == old(closes)
    {
      hide B.Poke, B.EnsureWritable, Decode, Encode;
      inputBuffer.Receive(data);
      stream := stream + data;
      var len := inputBuffer.PeekInt(In.HEADER_LEN);
      DecodeOfEncode(In.HEADER_LEN, len);
      inputBuffer.EnsureWritableBytes(len);
      pending := In.BodyRead(len);
    }

    /**
     The handler of readBody() without error; messageCallback_ is ProtobufCodec::onMessage,
     and taken is how many bytes it consumes.
     */
    method OnBody(data: seq<byte>, registered: set<seq<byte>>) returns (delivered: seq<P.Message>, ghost taken: nat)
      requires Valid() && In.Possible(Reader(), In.Body(data, 0)) && In.Fits(Reader(), In.Body(data, 0))
      requires inputBuffer.Contents() + data != []
      requires !PS.Drained(registered, inputBuffer.Contents() + data).verdict.Spins?
      modifies this, inputBuffer, inputBuffer.buffer
      ensures Valid() && inputBuffer.buffer == old(inputBuffer.buffer)
      ensures In.Sane(old(Reader()), In.Body(data, taken))
      ensures Reader() == In.Apply(old(Reader()), In.Body(data, taken))
      ensures var o := PS.Drained(registered, old(inputBuffer.Contents()) + data);
        && delivered == o.messages && inputBuffer.Contents() == o.rest
        && taken + |o.rest| == |old(inputBuffer.Contents()) + data|
        && Sender() == (if o.verdict.Rejects? then Out.ShutdownOnLoop(old(Sender())) else old(Sender()))
      ensures notices == old(notices) && closes == old(closes)
    {
      ghost var was := Reader();
      inputBuffer.Receive(data);
      assert inputBuffer.View() == In.Stored(was, data);
      hide B.Poke, B.Retrieve, B.OnlyRetrieved, PS.Drained, Out.ShutdownOnLoop, In.Apply, In.Sane, In.Stored;
      ghost var shown := inputBuffer.Contents();
      stream, seen := stream + data, seen + [shown];
      var shutdown;
      delivered, shutdown := PS.OnMessage(registered, inputBuffer);
      In.BodyApplied(was, data, inputBuffer.View());
      taken := |shown| - inputBuffer.ReadableBytes();
      if shutdown {
        Shutdown(true);
      }
      ReadHeader();
    }
  }
}
