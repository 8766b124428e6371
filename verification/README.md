# A Dafny model of the IOLoop library

IOLoop is a reactor library over Boost.Asio in the style of muduo. The sockets and the
event loop belong to Asio; what IOLoop puts on top of them is a stack of small stateful
components whose guarantees hold jointly. This project models those components and
proves the guarantees.

Each class of the library that changes its fields in place is a class here
(`Buffer`, `TcpConnection`, `TcpServer`, `ThreadPool`, `Connector`, `TcpClient`,
`Router`, `Url`, `File`), and each method is proved against a function on values that
says what becomes of the whole state. The results about runs (any number of threads,
any interleaving, any number of bytes per transfer) are lemmas about those functions.
The server keeps of each connection the fields that its life touches; the buffers of a
connection are in its own class.

| file | what it holds |
|---|---|
| `Bytes.dfy` | bytes, two's complement integers of any width, network order |
| `BufferSpec.dfy`, `BufferRuns.dfy`, `Buffer.dfy` | the layout of `Buffer`, runs of its operations, the class |
| `LengthHeaderCodec.dfy` | length-prefixed messages |
| `Adler32.dfy`, `ProtobufCodec.dfy`, `ProtobufStream.dfy` | the checksum of section 8.2 of RFC 1950, one frame, a stream of frames |
| `ConnectionState.dfy`, `SendSide.dfy`, `ReadSide.dfy`, `TcpConnection.dfy` | both halves of a connection as transition systems, the class |
| `SendLimits.dfy` | which calls of `send` and `shutdown` keep the promises of the sending half |
| `Delivery.dfy`, `DeliveryRuns.dfy` | a sender and a receiver together, and runs in which everything arrives |
| `ConnectionNames.dfy`, `TcpServer.dfy`, `TcpServerRuns.dfy` | connection names, the life of connections across loops |
| `ThreadPool.dfy` | the bounded blocking queue as a monitor |
| `Connector.dfy`, `ConnectorRuns.dfy` | connecting, retrying, stopping |
| `Router.dfy`, `Url.dfy`, `File.dfy` | mounted routes, URL splitting, short transfers |
| `Basics.dfy` | an option type and a few functions on numbers |

## What is taken from the environment

- A handler runs to its end without another handler of the same loop in between. Other
  threads act at any time: `send` and `shutdown` on another thread are split into the
  test of `state_`, the set, and the post, and the handlers of `Connector` and
  `TcpClient` into each test of the wish to connect and what follows it. Inside any other
  handler a step of another thread has the effect that it has before or after it.
  `state_` and `connect_` are plain fields; the model gives each access an order.
- `async_read` completes with exactly the bytes asked for or with an error. An
  `async_write` may complete after any part of its bytes. Its bytes are those in the
  buffer when it was issued: it is given an address (Net/TcpConnection.cpp:189), and a
  later append moves the data exactly if it does not fit (`AppendInPlaceIff`).
- Message callbacks do nothing to the buffer they are called with but take bytes from it.
- Protobuf serialisation and parsing are inverse on opaque bytes; a type name is
  registered or not. A message whose payload does not parse is delivered all the same,
  as in the code.
- Condition variables may wake spuriously, and `notify_one` may wake any waiter.

## Where the code falls short of the plain property

Each of these is stated exactly, as an equivalence.

- `LengthHeaderCodec` keeps back a last, empty message until another byte arrives
  (`AllDeliveredIff`, `TrailingEmptyArrivesLater`).
- `ProtobufCodec::onMessage` never returns on an incomplete or unacceptable frame
  (`TerminatesIffWholeFrames`). Over `readHeader`/`readBody` no frame is incomplete, and
  it returns exactly if the length is out of range or the body parses
  (`TerminatesOnFrameIff`): always on what `send` built from deliverable messages
  (`EndToEnd`), never once a byte of the body is damaged (`ReplacedByteSpins`).
- `ProtobufCodec` leaves a frame in the buffer, and loses the framing of
  `readHeader`/`readBody`, exactly if the body has fewer than ten bytes or more than
  64 MiB (`CodecKeepsStepIff`). Only the longer one shuts the connection down; after
  either, the old length is read again as the next header (`OutOfRangeFrameStays`).
- Adler-32 misses an exchange of two bytes exactly at distances that 65521 divides
  (`SwappedBytesPassIff`).
- An empty append to an empty output buffer starts a write that the next append cannot
  see. Among the calls and completions of a connection, that and nothing else breaks the
  order of the bytes (`SoundKeptIff`, `OutputConservedIff`, `AppendKeepsWireIff`), as long
  as no append moves the bytes of a write in flight, which it does exactly if it finds no
  room behind them (`AppendInPlaceIff`).
- A `shutdown` can shut the socket twice, exactly if the connection can still write and a
  send is queued, or another call is between its test and its act, or it came from
  another thread and bytes wait (`ShutsAtMostOnceIff`). Bytes are accepted after it exactly
  if a send is queued or has passed its test (`AcceptsNoMoreIff`).
- A closed connection accepts bytes again exactly if a `shutdown` on another thread is
  between its test and its set and a send is under way (`ClosedAcceptsNoMoreIff`).
- The destructor of a connection finds it kDisconnected exactly if no `shutdown` on
  another thread set `state_` after the close (`NothingPendingMeansSettled`), which takes a
  test before the close (`OnLoopNoneOverwritten`).
- A negative header never gets room for its body (`RoomForBodyIff`).
- `readHeader` reserves nothing: after a callback that leaves bytes behind, the next
  header is stored beyond the array unless the array had four bytes to spare
  (`InStepIffDrained`, `UndrainedHeaderFitsIff`).
- Connection names collide if the address has more than fifty characters
  (`NamesDistinctIff`) or if a connection outlives a whole turn of the 32-bit counter
  (`FreshNameIff`, `LifecycleKeptIff`).
- A second `connect()` is safe only while nothing is alive and the connector is
  disconnected (`ConnectKeepsIff`). A `stop()` is final exactly unless it falls between a
  test that found connecting wanted and what follows it, in `removeConnection`,
  `startInThisThread`, `retry` or `connecting` (`StopIsFinalIff`).
- `concat` is not associative on half-anchored patterns (`ConcatAssociativeIff`).
- Printing and parsing a URL is not the identity on all components (`RoundTripIff`).

## Model

| member | source | states |
|---|---|---|
| Bytes.DecodeOfEncode | Net/Buffer.cpp:113-172 | reading a signed integer of any width in network order undoes writing it |
| Bytes.EncodeOfDecode | Net/Buffer.cpp:151-172 | every byte string is the encoding of the integer it decodes to |
| Bytes.MostSignificantFirst | Net/Buffer.cpp:113-172 | the first byte of an integer is its most significant one |
| Bytes.SignIsTopBit | Net/Buffer.cpp:151-172 | the top bit of the first byte is the sign, in two's complement |
| Bytes.NetworkOrder | Net/Buffer.cpp:151-172 | one, two and four bytes as 8-, 16- and 32-bit integers, digit by digit |
| BufferSpec.EnsureWritableMakesRoom | Net/Buffer.cpp:219-236 | a reservation makes room, keeps the readable bytes, compacts only with more than eight dead bytes in front (the assertion), and otherwise resizes to exactly writer + len |
| BufferSpec.EnlargedIff | Net/Buffer.cpp:219-236 | the array is enlarged, by zeros, exactly if free and dead bytes together are fewer than len + 8; otherwise the readable bytes move to index eight |
| BufferSpec.FreshLayout | Net/Buffer.h:14-17 | eight prependable bytes, the size asked for writable, 1024 by default, all zero |
| BufferSpec.AppendContents | Net/Buffer.cpp:70-75 | appending puts the data behind the readable bytes wherever they end up in memory |
| BufferSpec.AppendInPlaceIff | Net/Buffer.cpp:70-75 | an append leaves array and readable bytes where they are exactly if the data fits behind them |
| BufferSpec.PrependContents | Net/Buffer.cpp:191-197 | prepending puts the data in front of the readable bytes |
| BufferSpec.RetrieveContents | Net/Buffer.cpp:28-50 | retrieving drops a prefix, also when it resets both indices |
| BufferSpec.RetrieveResets | Net/Buffer.cpp:28-50 | retrieving everything puts both indices at eight, retrieving less moves the reader only |
| BufferSpec.UnwriteContents | Net/Buffer.cpp:107-111 | unwrite drops a suffix |
| BufferSpec.PokeThenHasWritten | Net/Buffer.cpp:91-105 | bytes stored at beginWrite() become readable by hasWritten and nothing else changes |
| BufferSpec.ShrinkContents | Net/Buffer.cpp:199-205 | shrink keeps the contents, leaves the reserve writable and the array as small as the initial size allows |
| BufferRuns.StepRefines | Net/Buffer.cpp:28-236 | every operation that its own assertion allows acts on the memory layout as on a plain byte sequence |
| BufferRuns.RunRefines | Net/Buffer.cpp:28-236 | so does every run, with the same integers handed out; indices stay in order and the array has at least eight bytes |
| BufferRuns.PlainlyAllowedIsLegal | Net/Buffer.cpp:28-236 | a run that the plain sequence allows and that neither prepends nor stores from outside is never refused by the layout |
| BufferRuns.PrependIntThenRead | Net/Buffer.cpp:174-189 | readIntN undoes prependIntN for every signed value of any width |
| BufferRuns.AppendIntThenRead | Net/Buffer.cpp:113-128 | readIntN gives back what appendIntN appended once everything before it is retrieved |
| BufferRuns.SizeBounded | Net/Buffer.cpp:219-236 | over any run with at most R readable bytes and reservations of at most L, the array never exceeds max(initial, R + 2L + 7) |
| Buffers.MoveBytesDown | Net/Buffer.cpp:229-231 | the forward copy within one array is right although the ranges overlap |
| Buffers.Buffer.constructor | Net/Buffer.cpp:13-21 | an empty buffer with eight prependable and initialSize writable bytes |
| Buffers.Buffer.Swap | Net/Buffer.cpp:22-27 | the two buffers exchange array and indices |
| Buffers.Buffer.Retrieve | Net/Buffer.cpp:28-39 | the class method does to its fields what the layout function does |
| Buffers.Buffer.RetrieveUntil | Net/Buffer.cpp:40-45 | what remains is what lay between the given address and the writer |
| Buffers.Buffer.RetrieveAll | Net/Buffer.cpp:46-50 | both indices are reset and nothing is readable |
| Buffers.Buffer.RetrieveAsString | Net/Buffer.cpp:55-61 | the string and the rest make up the old contents |
| Buffers.Buffer.RetrieveAllAsString | Net/Buffer.cpp:51-54 | the whole contents are handed out |
| Buffers.Buffer.Append | Net/Buffer.cpp:70-75 | old contents followed by the data, in the same or a new array |
| Buffers.Buffer.EnsureWritableBytes | Net/Buffer.cpp:82-89 | room for len bytes, contents unchanged |
| Buffers.Buffer.MakeSpace | Net/Buffer.cpp:219-236 | either branch makes room; the assertion on readerIndex_ holds |
| Buffers.Buffer.Enlarge | Net/Buffer.cpp:223 | resize keeps the old bytes and adds zeros |
| Buffers.Buffer.Compact | Net/Buffer.cpp:227-234 | the readable part moves to index eight, the bytes behind it stay |
| Buffers.Buffer.HasWritten | Net/Buffer.cpp:101-105 | the first len writable bytes become readable |
| Buffers.Buffer.Unwrite | Net/Buffer.cpp:107-111 | the last len readable bytes are given up |
| Buffers.Buffer.Prepend | Net/Buffer.cpp:191-197 | the data precedes the old contents, in the same array |
| Buffers.Buffer.Shrink | Net/Buffer.cpp:199-205 | contents kept, reserve writable, a fresh array |
| Buffers.Buffer.AppendInt | Net/Buffer.cpp:113-128 | the big-endian form of x follows the old contents |
| Buffers.Buffer.PrependInt | Net/Buffer.cpp:174-189 | the big-endian form of x precedes the old contents |
| Buffers.Buffer.PeekInt | Net/Buffer.cpp:151-172 | the value whose big-endian form the buffer starts with |
| Buffers.Buffer.ReadInt | Net/Buffer.cpp:130-149 | the same, and its bytes are gone |
| LengthHeaderCodec.OnMessage | Net/Codec.cpp:15-38 | the loop terminates, delivers, leaves over and asks for shutdown as the stream function says |
| LengthHeaderCodec.RejectedAtOnceIff | Net/Codec.cpp:17-25 | a stream is rejected at once exactly if it is longer than its header and that announces a negative length or more than 65536 |
| LengthHeaderCodec.DecodedResumes | Net/Codec.cpp:15-38 | decoding can stop after any prefix and resume on what it left over |
| LengthHeaderCodec.FedIsOneCall | Net/Codec.cpp:15-38 | appending chunk by chunk with a call after each is one call on the whole stream |
| LengthHeaderCodec.ChunkIndependence | Net/Codec.cpp:15-38 | two ways of cutting a stream give the same messages, leftover and verdict |
| LengthHeaderCodec.DecodedOfFrames | Net/Codec.cpp:17-37 | framed messages of at most 65536 bytes come out in order, but a last empty one stays as four header bytes |
| LengthHeaderCodec.AllDeliveredIff | Net/Codec.cpp:17 | everything is delivered at once exactly when the last message is not empty |
| LengthHeaderCodec.TrailingEmptyArrivesLater | Net/Codec.cpp:17 | one more byte releases the empty message that stayed behind |
| LengthHeaderCodec.FramesOfDecoded | Net/Codec.cpp:17-37 | framing the delivered messages and adding the leftover gives back the stream, for every stream |
| Adler32.SumsAreReduced | Net/ProtobufCodec.cpp:53 | the running sums are the closed-form sums modulo 65521 |
| Adler32.ChecksumIsAdler32 | Net/ProtobufCodec.cpp:53 | the halves of the checksum are one plus the sum of the bytes, and the length plus their weighted sum, modulo 65521 |
| Adler32.CancelFactor | Net/ProtobufCodec.cpp:53 | a factor below 256 cancels modulo 65521 |
| Adler32.ReplacementDetected | Net/ProtobufCodec.cpp:53 | no replacement of one byte keeps the checksum |
| Adler32.SwapKeepsChecksumIff | Net/ProtobufCodec.cpp:53 | exchanging two unequal bytes keeps the checksum exactly at distances that 65521 divides |
| ProtobufCodec.Send | Net/ProtobufCodec.cpp:37-59 | building the frame in a Buffer gives length, name length, name, zero, payload and trailer |
| ProtobufCodec.AppendChecked | Net/ProtobufCodec.cpp:40-52 | the part of the frame that the checksum covers |
| ProtobufCodec.AppendTrailer | Net/ProtobufCodec.cpp:53-54 | the checksum of what is in the buffer follows it in network order |
| ProtobufCodec.FrameInBytes | Net/ProtobufCodec.cpp:37-59 | where each part of a frame stands, byte by byte, with the zero that closes the name and the checksum at the end |
| ProtobufCodec.ChecksumMatchesIff | Net/ProtobufCodec.cpp:78-80 | the int32 comparison passes exactly if the trailer bytes are those of the checksum |
| ProtobufCodec.ParseOfBody | Net/ProtobufCodec.cpp:74-97 | parse undoes the encoding exactly for non-empty registered names |
| ProtobufCodec.ReplacedByteDetected | Net/ProtobufCodec.cpp:74-97 | replacing any one byte of a frame body makes parse return null |
| ProtobufCodec.SwappedBytesPassIff | Net/ProtobufCodec.cpp:74-97 | exchanging two unequal checked bytes passes the checksum exactly at distances that 65521 divides |
| ProtobufCodec.SwappedBytesDetected | Net/ProtobufCodec.cpp:74-97 | so every exchange within 65520 bytes makes parse return null |
| ProtobufStream.OnMessage | Net/ProtobufCodec.cpp:16-36 | on every buffer on which the loop ends, what it delivers, retrieves and leaves |
| ProtobufStream.TakeFront | Net/ProtobufCodec.cpp:26-34 | a frame is retrieved only if it parses |
| ProtobufStream.SpinsForever | Net/ProtobufCodec.cpp:18-35 | after any number of turns the loop still runs, on every other buffer |
| ProtobufStream.TerminatesIffNotSpinning | Net/ProtobufCodec.cpp:18-35 | the loop ever returns exactly if the buffer is not one of those |
| ProtobufStream.Returns | Net/ProtobufCodec.cpp:18-35 | the number of turns after which the loop returns, with its result |
| ProtobufStream.TerminatesIffWholeFrames | Net/ProtobufCodec.cpp:18-35 | the loop ends exactly on whole acceptable frames followed by fewer than fourteen bytes or a length out of range |
| ProtobufStream.DrainedOfFrames | Net/ProtobufCodec.cpp:16-36 | acceptable frames are delivered in order, whatever follows |
| ProtobufStream.TerminatesPastFrameIff | Net/ProtobufCodec.cpp:26-34 | the loop gets past a whole frame exactly if it parses |
| ProtobufStream.TerminatesOnFrameIff | Net/ProtobufCodec.cpp:18-35 | on one frame, as the connection hands it over, the loop ends exactly if the length is out of range or the body parses |
| ProtobufStream.ReplacedByteSpins | Net/ProtobufCodec.cpp:26-34 | any one byte of a sent body replaced keeps the loop running for ever |
| ProtobufStream.SwappedBytesSpin | Net/ProtobufCodec.cpp:26-34 | so do two unequal checked bytes exchanged within 65520 bytes |
| ProtobufStream.SentFrameTerminatesIff | Net/ProtobufCodec.cpp:26-34 | an undamaged frame lets the loop end exactly if its type name is registered and not empty |
| ProtobufStream.DrainedOfSent | Net/ProtobufCodec.cpp:16-59 | any number of sent frames come out as the messages sent and leave the buffer empty |
| SendSide.NothingDropped | Net/TcpConnection.cpp:66-111 | a send while connected is accepted or will be queued, and the queue is accepted in order; only a disconnected connection gives up |
| SendSide.UninterruptedSend | Net/TcpConnection.cpp:66-79 | test and post of a send on another thread, with nothing between them, are the call as a whole |
| SendSide.UninterruptedShutdown | Net/TcpConnection.cpp:47-54 | so are test, set and post of a shutdown |
| SendSide.SoundKept | Net/TcpConnection.cpp:47-221 | every step without an empty append to an empty buffer keeps conservation, single writer and wire order, and the assertion in retrieve |
| SendSide.SoundKeptIff | Net/TcpConnection.cpp:105-110 | and no other step does: the exact condition, for sends on the loop and for queued ones |
| SendSide.CompleteKeeps | Net/TcpConnection.cpp:192-206 | the write handler keeps them, however much was written |
| SendSide.OutputConserved | Net/TcpConnection.cpp:97-221 | over every run without an empty append to an empty buffer: confirmed bytes and output buffer make up everything accepted, one write is outstanding exactly while bytes wait, none after an error |
| SendSide.OutputConservedIff | Net/TcpConnection.cpp:97-221 | exactly those runs keep this at every step |
| SendSide.NonEmptySendsAreHarmless | Net/TcpConnection.cpp:105-110 | every run in which nobody sends nothing is one of them |
| SendSide.GracefulKept | Net/TcpConnection.cpp:47-221 | every orderly step keeps the shutdown guarantees |
| SendSide.GracefulShutdown | Net/TcpConnection.cpp:47-221 | shut down at most once, only with everything confirmed; nothing accepted afterwards; and shut down once all has drained and the queued half has run |
| SendLimits.EstablishedAccepts | Net/TcpConnection.cpp:28-35 | after connectEstablished the first bytes sent are accepted, and with nothing waiting they are the one write outstanding |
| SendLimits.EmptySendDuplicates | Net/TcpConnection.cpp:105-110 | from any connected state with nothing waiting, an empty append leads to the peer receiving the next data twice |
| SendLimits.AppendKeepsWireIff | Net/TcpConnection.cpp:105-110 | what the peer gets stays a prefix of what was accepted, in every future, exactly if the append is not empty or bytes wait |
| SendLimits.OpenUntilShutdown | Net/TcpConnection.cpp:47-221 | over every run of non-empty sends, whatever the threads do, the connection stays open, in the sense of the next rows, until a shutdown takes effect |
| SendLimits.Drain | Net/TcpConnection.cpp:192-206 | from any state after shutdown that can write, the writes can drain and shut the socket |
| SendLimits.AllAct | Net/TcpConnection.cpp:47-79 | every call that has passed its test ends up in the queue |
| SendLimits.ShutsDownTwice | Net/TcpConnection.cpp:47-54 | from any open state that can write and in which something else is still to come, a shutdown leads to shutting the socket twice |
| SendLimits.ShutsAtMostOnceIff | Net/TcpConnection.cpp:47-126 | the exact condition, at the moment a shutdown takes effect on any thread, for the socket to be shut at most once in every future |
| SendLimits.QueuedSendOutlivesShutdown | Net/TcpConnection.cpp:66-79 | from any open state, a queued send is accepted after shutdown, even with the socket shut |
| SendLimits.LateSendOutlivesShutdown | Net/TcpConnection.cpp:68-76 | so is a send that passed its test before and posts only then |
| SendLimits.AcceptsNoMoreIff | Net/TcpConnection.cpp:47-79 | nothing is accepted after a shutdown took effect, in any future, exactly if no send is queued or past its test |
| SendLimits.GracefulIffOrderly | Net/TcpConnection.cpp:47-126 | both promises hold in every future exactly for the shutdowns that GracefulShutdown asks for |
| SendLimits.ShutdownOnLoopIsOrderly | Net/TcpConnection.cpp:47-54 | in particular for a shutdown on the loop with no other call under way and no send queued |
| SendLimits.ClosedAcceptsNothing | Net/TcpConnection.cpp:128-136 | a closed connection accepts nothing in any run, unless a shutdown had passed its test |
| SendLimits.ClosedAcceptsNoMoreIff | Net/TcpConnection.cpp:132 | after a close nothing is accepted, in any future, exactly if no shutdown is between its test and its set or no send is under way |
| ReadSide.HeaderInStep | Net/TcpConnection.cpp:147-165 | the four header bytes land inside the array although no space was reserved, and the body then fits |
| ReadSide.BodyInStep | Net/TcpConnection.cpp:167-184 | the callback sees one header with its body, and the indices are back at (8, 8) |
| ReadSide.ReadsInStep | Net/TcpConnection.cpp:147-184 | both over every run with draining callbacks and honest headers; the array stays within its bound |
| ReadSide.FramingIsUnique | Net/TcpConnection.cpp:147-184 | a stream can be cut into headers with bodies in one way only |
| ReadSide.CallbacksSeeTheFrames | Net/TcpConnection.cpp:180 | the callbacks were shown exactly the frames of the stream |
| ReadSide.InStepIffDrained | Net/TcpConnection.cpp:177-182 | a message callback keeps the step exactly if it drains the buffer |
| ReadSide.UndrainedHeaderFitsIff | Net/TcpConnection.cpp:147-184 | after a callback that left bytes, the next header lands inside the array exactly if there were four bytes to spare beyond the frame |
| ReadSide.StaleHeader | Net/TcpConnection.cpp:160 | if it left the whole frame, the length of that frame is peeked again, whatever bytes arrive |
| ReadSide.BodyApplied | Net/TcpConnection.cpp:177-182 | any callback that only retrieves makes a step, with what it leaves as the new buffer |
| ReadSide.RoomForBodyIff | Net/TcpConnection.cpp:160-161 | with 64-bit sizes, the reservation for an announced length succeeds exactly if it is not negative |
| ReadSide.ReservedIsEnsureWritable | Net/Buffer.cpp:219-236 | below 2^62 the wrapping sizes decide as the unbounded ones |
| Connections.TcpConnection.ConnectEstablished | Net/TcpConnection.cpp:28-35 | connected, one call up, the first header read issued |
| Connections.TcpConnection.ConnectDestroyed | Net/TcpConnection.cpp:37-45 | calls down only if still connected |
| Connections.TcpConnection.HandleClose | Net/TcpConnection.cpp:128-136 | disconnected, one call down, one close callback |
| Connections.TcpConnection.Send | Net/TcpConnection.cpp:66-79 | the step of the sending half; the caller's buffer is emptied only while connected |
| Connections.TcpConnection.TestToSend | Net/TcpConnection.cpp:68 | a send on another thread up to its test |
| Connections.TcpConnection.TestToShutdown | Net/TcpConnection.cpp:49 | a shutdown on another thread up to its test |
| Connections.TcpConnection.ActOnCall | Net/TcpConnection.cpp:51-76 | what such a call does next: post the send, set state_, or post the shutdown |
| Connections.TcpConnection.SendInThisThread | Net/TcpConnection.cpp:97-111 | the step of the sending half, on the Buffer itself |
| Connections.TcpConnection.RunPosted | Net/TcpConnection.cpp:52-76 | the oldest send or shutdown posted by another thread takes effect |
| Connections.TcpConnection.Shutdown | Net/TcpConnection.cpp:47-54 | the step of the sending half, inline or posted |
| Connections.TcpConnection.ShutdownInThisThread | Net/TcpConnection.cpp:113-126 | the socket is shut only if the output buffer is empty |
| Connections.TcpConnection.Write | Net/TcpConnection.cpp:186-189 | one more write, of all readable bytes |
| Connections.TcpConnection.OnWritten | Net/TcpConnection.cpp:190-206 | the step of the sending half after a write |
| Connections.TcpConnection.OnWriteFailed | Net/TcpConnection.cpp:207-219 | nothing but the end of that write |
| Connections.TcpConnection.OnHeader | Net/TcpConnection.cpp:157-163 | the step of the reading half, down to the bytes of the array |
| Connections.TcpConnection.OnBody | Net/TcpConnection.cpp:177-182 | the step of the reading half with ProtobufCodec as callback; an invalid length shuts the connection down |
| Connections.TcpConnection.OnReadError | Net/TcpConnection.cpp:152-156 | handleClose, and no further read |
| Delivery.NextHeader | Net/TcpConnection.cpp:157-163 | the header that arrives is that of the next undelivered message |
| Delivery.BodyKeeps | Net/TcpConnection.cpp:177-182 | onMessage returns, fires exactly the next message and leaves the buffer empty |
| Delivery.StepKeeps | Net/TcpConnection.cpp:97-221 | every step of sender and receiver is safe and keeps the invariant |
| Delivery.EndToEnd | Net/ProtobufCodec.cpp:16-59 | over every run: no assertion fails, every onMessage returns, the callbacks fired are a prefix of the messages sent, the buffer is empty between frames |
| Delivery.DrainedMeansDelivered | Net/TcpConnection.cpp:192-206 | once the sender has drained, the receiver can go on or has delivered everything |
| DeliveryRuns.EverythingDeliverable | Net/ProtobufCodec.cpp:16-59 | any deliverable messages, each sent from the thread one likes, are sent and delivered whole by some run from the opening of the connection |
| DeliveryRuns.OneDelivered | Net/TcpConnection.cpp:66-221 | in particular one message, through send, its write, both reads and the callback |
| DeliveryRuns.IdleDeliversNothing | Net/TcpConnection.cpp:152-156 | after a failed read nothing more is delivered, whatever the sender does |
| Delivery.OutOfRangeEnds | Net/ProtobufCodec.cpp:18-25 | on a body of fewer than ten bytes onMessage just returns, on one above 64 MiB it rejects; neither is delivered or retrieved |
| Delivery.CodecKeepsStepIff | Net/ProtobufCodec.cpp:16-36 | on any body on which onMessage returns, it keeps the framing of readHeader and readBody exactly if the length is in range |
| Delivery.OutOfRangeFrameStays | Net/TcpConnection.cpp:157-182 | such a frame stays while the connection reads on: when the next header still fits, and that the old length is then read again |
| ConnectionNames.NamesInjective | Net/TcpServer.cpp:77-78 | with an address of at most fifty characters, different ids print different names |
| ConnectionNames.NamesDistinctIff | Net/TcpServer.cpp:75-78 | and only then: longer addresses cut the id off |
| ConnectionNames.NamePrinted | Net/TcpServer.cpp:77-78 | a name is that of the server, a dash, the address, a hash and the id in decimal, from 2^31 on as a negative number |
| ConnectionNames.NameIsBounded | Net/TcpServer.cpp:75-78 | at most 63 characters follow the name of the server, and a long address leaves no room for the id |
| TcpServers.SoundKept | Net/TcpServer.cpp:55-87 | every step on any loop keeps the invariant: assertions hold, each connection waits for exactly one task on the right loop, the map files who is not removed |
| TcpServers.AcceptKeepsIff | Net/TcpServer.cpp:77-86 | accepting keeps the invariant exactly if the printed name is not in use |
| TcpServers.FreshNameIff | Net/TcpServer.cpp:77-79 | the name is free exactly if no filed connection is a whole number of counter turns old |
| TcpServers.DestroyKeeps | Net/TcpConnection.cpp:37-45 | connectDestroyed finds the connection disconnected, or overwritten by a late shutdown, and never calls down again |
| TcpServers.LoopsConfined | Net/IOLoop.cpp:69-84 | a step changes state, reading and callback counts of connections of its own loop only, and the map on the base loop only; a shutdown from another thread sets nothing but the state |
| TcpServers.AcceptedOnItsLoop | Net/TcpServer.cpp:72-87 | a new connection belongs to the loop of its socket; off the base loop it is kConnecting with exactly its connectEstablished posted there, on it already up |
| TcpServers.TasksHandled | Net/TcpServer.cpp:55-70 | which task every step takes and which it posts, and where |
| TcpServers.LifecycleKept | Net/TcpServer.cpp:55-87 | the invariant over every run in which no name is reused while in use |
| TcpServers.LifecycleKeptIff | Net/TcpServer.cpp:55-87 | exactly those runs keep the invariant at every step |
| TcpServers.NamesStayFresh | Net/TcpServer.cpp:77-79 | with at most 2^32 connections accepted, whatever else happens, no name is reused while in use |
| TcpServers.Lifecycle | Net/TcpServer.cpp:55-87 | from start(), over every interleaving with at most 2^32 connections accepted: all assertions hold, callbacks come at most once and in order, keys are distinct |
| TcpServers.NothingPendingMeansSettled | Net/TcpConnection.cpp:21-26 | with no task left every connection is reading and filed, or gone; and then kDisconnected exactly if no shutdown on another thread set state_ after the close |
| TcpServers.OnLoopNoneOverwritten | Net/TcpConnection.cpp:47-54 | which no run does in which shutdown is called on the connection's own loop |
| TcpServerRuns.WholeLife | Net/TcpServer.cpp:55-87 | from any sound state, on any loop, a connection can be accepted, closed, removed and destroyed with one call up and one down, and all but the counter is as before |
| TcpServerRuns.LateShutdownOverwrites | Net/TcpConnection.cpp:47-54 | a shutdown that passed its test before the close leaves the closed connection kDisconnecting |
| TcpServerRuns.ShutdownOnLoopSets | Net/TcpConnection.cpp:47-54 | shutdown on the loop ends kConnected and changes nothing else |
| TcpServerRuns.DestroyedIsDown | Net/TcpConnection.cpp:37-45 | connectDestroyed of a connection still up closes it and calls down, of any other it does nothing |
| TcpServers.TcpServer.NewConnection | Net/TcpServer.cpp:72-87 | names, files and dispatches the connection, inline on the base loop |
| TcpServers.TcpServer.RemoveConnection | Net/TcpServer.cpp:55-58 | inline on the base loop, posted to it from any other |
| TcpServers.TcpServer.RemoveConnectionInThisThread | Net/TcpServer.cpp:60-70 | erases the entry, reports whether there was one, posts connectDestroyed |
| TcpServers.TcpServer.HandleClose | Net/TcpConnection.cpp:128-136 | the close handler with its dispatch to the base loop |
| TcpServers.TcpServer.RunConnectEstablished | Net/TcpConnection.cpp:28-35 | the posted or inline connectEstablished of one connection |
| TcpServers.TcpServer.RunConnectDestroyed | Net/TcpConnection.cpp:37-45 | the posted connectDestroyed of one connection |
| TcpServers.TcpServer.PostTo | Net/IOLoop.cpp:81-84 | posting adds one pending task to that loop |
| ThreadPools.PostKeeps | Net/ThreadPool.cpp:45-61 | queueing a task and notifying keeps the invariant |
| ThreadPools.TakeKeeps | Net/ThreadPool.cpp:79-100 | taking a task and notifying keeps the invariant |
| ThreadPools.TracedKept | Net/ThreadPool.cpp:45-110 | every step keeps whose task each task is: no call posts twice, each producer holds the task of its call, each worker runs a task it took |
| ThreadPools.SoundKept | Net/ThreadPool.cpp:45-110 | every step of every thread keeps it: sleeping workers only while awake ones cover the queue, sleeping producers only while awake ones cover the free slots |
| ThreadPools.NoLostWakeup | Net/ThreadPool.cpp:45-110 | all threads sleep only if the queue is empty, nobody is blocked and the task of every call of post was taken |
| ThreadPools.RunsAreSound | Net/ThreadPool.cpp:45-110 | the invariant over every interleaving |
| ThreadPools.BoundedFifo | Net/ThreadPool.cpp:45-100 | posted is taken followed by the queue, the queue keeps to the limit, no lost wake-up |
| ThreadPools.EachTaskOnce | Net/ThreadPool.cpp:45-100 | the calls are those made; each task taken is that of its own call, none twice, and all have been taken when nothing is left to do |
| ThreadPools.EverythingIsTaken | Net/ThreadPool.cpp:45-110 | under any schedule the work left bounds the number of steps, and where it ends every task has been taken |
| ThreadPools.ThreadPool.Enter | Net/ThreadPool.cpp:45-47 | a call of post adds a producer with its task |
| ThreadPools.ThreadPool.Post | Net/ThreadPool.cpp:45-61 | the critical section of post |
| ThreadPools.ThreadPool.Take | Net/ThreadPool.cpp:79-100 | the critical section of take |
| ThreadPools.ThreadPool.NotifyOne | Net/ThreadPool.cpp:60 | some waiter wakes if there is one |
| Connectors.AtMostOneKept | Net/Connector.cpp:29-175 | every step keeps at most one attempt alive and the assertion in startInThisThread |
| Connectors.BackOffKept | Net/Connector.cpp:104-118 | every step keeps the retry delays on the doubling, capped sequence |
| Connectors.TimersKept | Net/Connector.cpp:111 | a pending timer waits for the delay asked for last |
| Connectors.ConnectKeepsIff | Net/Connector.cpp:29-33 | another connect() is safe exactly if nothing is alive and the state is disconnected |
| Connectors.AttemptLeadsOnIff | Net/Connector.cpp:55-102 | an attempt leads to a connection or a retry exactly if still wanted and not given up |
| Connectors.OneAttempt | Net/Connector.cpp:29-175 | over every run: one attempt alive, assertion holds, the n-th retry waits min(1000 * 2^n, 30000) ms, for which its timer is armed, every connection established is destroyed once it is lost |
| Connectors.StoppedStaysQuiet | Net/Connector.cpp:35-39 | after stop no attempt, timer or callback until connect() |
| Connectors.RestartBegins | Net/TcpClient.cpp:123-127 | a restart decided before stop leads to an attempt in spite of it |
| Connectors.StopIsFinalIff | Net/Connector.cpp:104-175 | stop is final exactly unless it falls between a test that found connecting wanted and what follows it, in any of the four places |
| ConnectorRuns.ConnectBegins | Net/Connector.cpp:29-33 | connect on an idle client, on its loop or not, leads to exactly one async_connect |
| ConnectorRuns.RetryArmsTimer | Net/Connector.cpp:104-118 | a failed attempt of a wanted connector leaves one attempt fewer and one timer of min(1000 * 2^n, 30000) ms, n retries before it |
| ConnectorRuns.TimerTriesAgain | Net/Connector.cpp:120-132 | when it fires, the connector tries once more |
| ConnectorRuns.RetriesGoOn | Net/Connector.cpp:55-132 | so any number of refused attempts leave one in flight |
| ConnectorRuns.SuccessDelivers | Net/Connector.cpp:144-175 | a successful attempt of a wanted connector becomes the connection |
| ConnectorRuns.LossLeadsOnIff | Net/TcpClient.cpp:111-128 | a lost connection is replaced exactly if retry was enabled and the client still wants one |
| ConnectorRuns.ReconnectsAfresh | Net/Connector.cpp:41-48 | the restart begins an attempt whose first retry waits 1000 ms again |
| ConnectorRuns.StopStops | Net/TcpClient.cpp:77-81 | stop clears both wishes and commits no handler |
| ConnectorRuns.StopIsQuietIff | Net/TcpClient.cpp:77-81 | after stop nothing begins until connect, exactly unless a handler was between such a test and what follows it |
| ConnectorRuns.StoppedAttemptEnds | Net/Connector.cpp:55-118 | whatever an attempt in flight at stop comes to, it leads to nothing |
| ConnectorRuns.UnreadableErrorSticks | Net/Connector.cpp:150-155 | if SO_ERROR cannot be read the connector stays kConnecting with nothing alive, until a stop has run |
| ConnectorRuns.FatalErrorEnds | Net/Connector.cpp:82-99 | a fatal error leaves the client idle |
| Connectors.Connector.Start | Net/Connector.cpp:29-33 | starts inline on the loop, queues a start from elsewhere |
| Connectors.Connector.StartInThisThread | Net/Connector.cpp:120-132 | connects only if still wanted |
| Connectors.Connector.Stop | Net/Connector.cpp:35-39 | clears the wish, inline or queued |
| Connectors.Connector.StopInThisThread | Net/Connector.cpp:134-142 | retries only out of kConnecting |
| Connectors.Connector.Restart | Net/Connector.cpp:41-48 | resets state and delay and connects |
| Connectors.Connector.Retry | Net/Connector.cpp:104-118 | arms a timer with the current delay and doubles it up to the cap |
| Connectors.Connector.OnAttempt | Net/Connector.cpp:55-102 | the handler of async_connect with connecting() |
| Connectors.TcpClient.Connect | Net/TcpClient.cpp:58-63 | both halves of connect |
| Connectors.TcpClient.Stop | Net/TcpClient.cpp:77-81 | both halves of stop |
| Connectors.TcpClient.OnAttempt | Net/TcpClient.cpp:94-109 | a delivered socket becomes the connection and is established |
| Connectors.TcpClient.LoseConnection | Net/TcpClient.cpp:116-123 | the connection is forgotten, connectDestroyed posted, and the wish to reconnect read |
| Connectors.TcpClient.RestartIfWanted | Net/TcpClient.cpp:123-127 | the connector is restarted if it was wanted at the test, whatever other threads did since |
| Connectors.TcpClient.RemoveConnection | Net/TcpClient.cpp:111-128 | both halves when nothing comes between |
| Routers.ConcatIsWrapped | Http/Router.hpp:130-151 | concat joins the bodies and anchors if either pattern is anchored |
| Routers.ConcatOfBodies | Http/Router.hpp:130-151 | the result is anchored, with the joined bodies, unless two half-anchored patterns close each other |
| Routers.ConcatAssociativeIff | Http/Router.hpp:130-151 | the exact condition for concat to be associative, over all non-empty patterns |
| Routers.ConcatAssociative | Http/Router.hpp:130-151 | it is associative on patterns anchored at both ends or neither |
| Routers.ConcatKeepsClean | Http/Router.hpp:130-151 | patterns anchored at both ends or neither stay so and never close each other |
| Routers.ConcatEqualIff | Http/Router.hpp:130-151 | when two patterns are mounted under the same pattern |
| Routers.ConcatInjective | Http/Router.hpp:130-151 | over anchored patterns concat is injective in its second argument |
| Routers.MountedCount | Http/Router.hpp:113-126 | one route for each route mounted |
| Routers.MountedTwice | Http/Router.hpp:101-127 | mounting below q and then p is mounting below concat(p, q), wherever concat is associative and the latter sends no two routes to one key |
| Routers.CleanMountedTwice | Http/Router.hpp:101-127 | so it is over patterns anchored at both ends or neither |
| Routers.AnchoredMountedTwice | Http/Router.hpp:101-127 | and over fully anchored patterns without a condition on keys |
| Routers.Router.AddResourceCb | Http/Router.hpp:62-76 | a new key gets the storage, nothing else changes; an existing key gets something unspecified |
| Routers.Router.Use | Http/Router.hpp:101-127 | with fresh keys the table gains exactly the mounted routes, in whatever order the maps are walked |
| Urls.TraceAssembles | Http/Url.cpp:16-78 | reassembling a parsed URL loses only leading blanks and the delimiters of empty components |
| Urls.RoundTrip | Http/Url.cpp:16-78 | printing well-formed components and parsing gives them back |
| Urls.OnlyWellFormed | Http/Url.cpp:16-78 | only well-formed components come back |
| Urls.RoundTripIff | Http/Url.cpp:16-78 | the exact condition for the round trip |
| Urls.FullUrl | Http/Url.cpp:16-78 | the same, spelt out with the delimiters, for components none of which is empty |
| Urls.HostAlone | Http/Url.cpp:58-78 | a host alone, a name or a bracketed address, parses as itself |
| Urls.Url.constructor | Http/Url.cpp:7-13 | the components of the URL, also of the empty one |
| Urls.Url.Parse | Http/Url.cpp:16-78 | the fields end up as the parsing function says |
| Urls.Url.AppendPath | Http/Url.cpp:80-106 | exactly one slash at the seam |
| Urls.OneSlashAtSeam | Http/Url.cpp:80-106 | the appended path in full: its length, one slash at the seam, and none beside it unless path or addition brought two |
| Urls.JoinedPathAssociative | Http/Url.cpp:80-106 | appending twice is appending the two joined |
| Urls.LTrimDropsBlanks | Http/Url.cpp:117-121 | blanks in front are dropped, and nothing else |
| Files.File.WriteAll | File/File.cpp:69-106 | the count returned, and the file extended or overwritten by exactly that prefix |
| Files.File.ReadAll | File/File.cpp:107-136 | the count returned, and the buffer filled with exactly that prefix of the file |
| Files.File.PWrite | File/File.cpp:59-62 | one call at any offset, with whatever the system does |
| Files.File.Write | File/File.cpp:49-52 | one call, at the end of a file opened for appending, else at the position of the descriptor |
| Files.File.PRead | File/File.cpp:64-67 | one call into the middle of the buffer |
| Files.ErrorFreeTransfersAll | File/File.cpp:84-103 | short transfers and interruptions, however many, lose nothing |
| Files.StopsAtFirstError | File/File.cpp:84-103 | the first call that moves nothing, would block or fails ends the loop with exactly what was offered before it |
| Files.PatchedAt | File/File.cpp:59-62 | a write at any offset, byte by byte, with zeros in a gap |
| Files.ReadBack | File/File.cpp:69-136 | a complete write followed by an error-free readAll returns the data |

## Left out

- Sockets, acceptors, resolvers and the inside of Boost.Asio: foreign calls; only their completions appear.
- Protobuf parsing, serialisation and descriptor lookup, Net/Dispatcher.h: library code; payloads are opaque bytes.
- The address captured by `async_write` while the output buffer may move: the model snapshots the bytes when the write is issued.
- Sizes are unbounded naturals; wrapping of `size_t` is modelled only where a negative header is converted (`RoomForBodyIff`), and allocation never fails.
- `ThreadPool::stop`, `postFuture` and tasks that post to the pool that runs them: producers and workers are different threads, before `stop()`.
- `TcpConnection::forceClose` and the destruction of servers and clients: a pending read may still call `handleClose` afterwards.
- `LengthHeaderCodec::send`: its body is commented out; the framing is a reference function.
- Message callbacks that send or shut down: they appear as separate steps of the same loop.
- The order in which a loop runs posted tasks: any order is covered in `TcpServer.dfy`; `SendSide.dfy` keeps the order of posting.
- `Router::add_resource_without_method` and `use` with an empty prefix: a null map, and `back()` on an empty string.
- std::regex matching and the request dispatch over it: library semantics; the model stays with pattern strings and tables.
- `Url::appendQuery`: its separator test is inverted, and nothing is promised of it.
- Short reads from `File::read`, offsets, locking, `stat` and `truncate`: thin wrappers of system calls.
- Timers, timestamps, logging, shared memory, signals and the thread-pool of loops: easy members or system calls.
- ProtobufStream.OnMessage: required not to spin, because a method must end; the buffers it leaves out are exactly those on which the loop runs for ever (`TerminatesIffNotSpinning`).
- Connections.TcpConnection.OnBody: for the same reason only bodies on which its callback returns; on one frame those of `TerminatesOnFrameIff`.
- Connections.TcpConnection.OnHeader: only headers that land inside the array and announce no negative length; when that holds is `UndrainedHeaderFitsIff` and `RoomForBodyIff`, and beyond it the code writes past the array or throws.
- Connectors.TcpClient.OnAttempt: the printed name of the connection is left out, as `nextConnId_` is never initialised.
- Routers.Router.Use: the loop over routes without a method is left out, as adding one dereferences a null map.
