/**
 The output half of a TcpConnection as a transition system: its state, the readable
 bytes of outputBuffer_, the async_write operations outstanding, the calls other threads
 are in the middle of, and the tasks they have posted to its loop. The class in
 TcpConnection.dfy is proved against these steps.
 */
module SendSide {
  import opened Bytes
  import opened ConnectionStates

  /** An async_write: the bytes it was given and how many the kernel has taken. */
  datatype Write = Write(snapshot: seq<byte>, sent: nat) {
    predicate Valid() { sent <= |snapshot| }
  }

  datatype Task = SendTask(data: seq<byte>) | ShutdownTask

  /**
   A call made on another thread that has found the connection connected and not yet
   acted on it: a send before it posts, a shutdown before it sets state_, and a shutdown
   between setting state_ and posting.
   */
  datatype Call = Sending(data: seq<byte>) | Stopping | Posting

  /**
   accepted, confirmed, wire, failed and limit are history: every byte appended by
   sendInThisThread, how many of them completed writes have reported, every byte the
   kernel was handed, whether a write has failed, and how much had been accepted when
   shutdown() took effect.
   */
  datatype Sender = Sender(
    state: State,
    output: seq<byte>,
    writes: seq<Write>,
    tasks: seq<Task>,
    calls: seq<Call>,
    shutdowns: nat,
    accepted: seq<byte>,
    confirmed: nat,
    wire: seq<byte>,
    failed: bool,
    limit: Limit)

  datatype Limit = NoLimit | Limit(bytes: nat)

  const INITIAL: Sender := Sender(Connecting, [], [], [], [], 0, [], 0, [], false, NoLimit)

  // ------------------------------------------------------------------- steps

  function Without<T>(s: seq<T>, i: nat): (t: seq<T>)
    requires i < |s|
    ensures |t| == |s| - 1
  {
    s[..i] + s[i + 1..]
  }

  function StartWrite(c: Sender): Sender {
    c.(writes := c.writes + [Write(c.output, 0)])
  }

  function SendInThisThread(c: Sender, data: seq<byte>): Sender {
    if c.state == Disconnected then c else
      var appended := c.(output := c.output + data, accepted := c.accepted + data);
      if c.output == [] then StartWrite(appended) else appended
  }

  function ShutdownInThisThread(c: Sender): Sender {
    if c.output == [] then c.(shutdowns := c.shutdowns + 1) else c
  }

  function SendOnLoop(c: Sender, data: seq<byte>): Sender {
    if c.state == Connected then SendInThisThread(c, data) else c
  }

  function Disconnect(c: Sender): Sender {
    c.(state := Disconnecting, limit := if c.limit == NoLimit then Limit(|c.accepted|) else c.limit)
  }

  function ShutdownOnLoop(c: Sender): Sender {
    if c.state == Connected then ShutdownInThisThread(Disconnect(c)) else c
  }

  /** On another thread: the test of state_. */
  function Tested(c: Sender, call: Call): Sender {
    if c.state == Connected then c.(calls := c.calls + [call]) else c
  }

  /** On another thread: what follows the test, whatever state_ is by then. */
  function Act(c: Sender, i: nat): Sender
    requires i < |c.calls|
  {
    match c.calls[i]
    case Sending(data) => c.(calls := Without(c.calls, i), tasks := c.tasks + [SendTask(data)])
    case Stopping => Disconnect(c).(calls := c.calls[i := Posting])
    case Posting => c.(calls := Without(c.calls, i), tasks := c.tasks + [ShutdownTask])
  }

  /** send() and shutdown() on another thread with nothing coming between. */
  function SendFromElsewhere(c: Sender, data: seq<byte>): Sender {
    if c.state == Connected then c.(tasks := c.tasks + [SendTask(data)]) else c
  }

  function ShutdownFromElsewhere(c: Sender): Sender {
    if c.state == Connected then Disconnect(c).(tasks := c.tasks + [ShutdownTask]) else c
  }

  lemma UninterruptedSend(c: Sender, data: seq<byte>)
    requires c.state == Connected
    ensures Act(Tested(c, Sending(data)), |c.calls|) == SendFromElsewhere(c, data)
  {
    assert Without(c.calls + [Sending(data)], |c.calls|) == c.calls;
  }

  lemma UninterruptedShutdown(c: Sender)
    requires c.state == Connected
    ensures Act(Act(Tested(c, Stopping), |c.calls|), |c.calls|) == ShutdownFromElsewhere(c)
  {
    assert (c.calls + [Stopping])[|c.calls| := Posting] == c.calls + [Posting];
    assert Without(c.calls + [Posting], |c.calls|) == c.calls;
  }

  function RunTask(c: Sender): Sender
    requires c.tasks != []
  {
    var rest := c.(tasks := c.tasks[1..]);
    match c.tasks[0]
    case SendTask(data) => SendInThisThread(rest, data)
    case ShutdownTask => ShutdownInThisThread(rest)
  }

  /** The kernel takes the next n bytes of an outstanding write. */
  function Transmit(c: Sender, w: nat, n: nat): Sender
    requires w < |c.writes| && c.writes[w].sent + n <= |c.writes[w].snapshot|
  {
    var write := c.writes[w];
    c.(writes := c.writes[w := write.(sent := write.sent + n)],
       wire := c.wire + write.snapshot[write.sent..write.sent + n])
  }

  /** The handler of write() without error; retrieve asserts that the bytes are there. */
  function Complete(c: Sender, w: nat): Sender
    requires w < |c.writes| && c.writes[w].sent <= |c.output|
  {
    var count := c.writes[w].sent;
    var rest := c.(writes := Without(c.writes, w), output := c.output[count..], confirmed := c.confirmed + count);
    if rest.output != [] then StartWrite(rest)
    else if rest.state == Disconnecting then ShutdownInThisThread(rest)
    else rest
  }

  /** The handler of write() with an error: it only logs. */
  function Fail(c: Sender, w: nat): Sender
    requires w < |c.writes|
  {
    c.(writes := Without(c.writes, w), failed := true)
  }

  function Close(c: Sender): Sender
    requires c.state == Connected || c.state == Disconnecting
  {
    c.(state := Disconnected)
  }

  function Establish(c: Sender): Sender
    requires c.state == Connecting
  {
    c.(state := Connected)
  }

  datatype Event =
    | Established
    | Sends(data: seq<byte>)
    | SendsElsewhere(data: seq<byte>)
    | ShutsDown
    | ShutsDownElsewhere
    | Acts(i: nat)
    | Runs
    | Transmits(w: nat, n: nat)
    | Completes(w: nat)
    | Fails(w: nat)
    | Closes

  /** Whether the environment can cause the event; assertions of the code are not assumed. */
  predicate Possible(c: Sender, e: Event) {
    match e
    case Established => c.state == Connecting
    case Acts(i) => i < |c.calls|
    case Runs => c.tasks != []
    case Transmits(w, n) => w < |c.writes| && c.writes[w].sent + n <= |c.writes[w].snapshot|
    case Completes(w) => w < |c.writes|
    case Fails(w) => w < |c.writes|
    case Closes => c.state == Connected || c.state == Disconnecting
    case _ => true
  }

  /** The assertion in retrieve, reached from the handler of write(). */
  predicate Asserted(c: Sender, e: Event)
    requires Possible(c, e)
  {
    e.Completes? ==> c.writes[e.w].sent <= |c.output|
  }

  function Apply(c: Sender, e: Event): Sender
    requires Possible(c, e) && Asserted(c, e)
  {
    match e
    case Established => Establish(c)
    case Sends(data) => SendOnLoop(c, data)
    case SendsElsewhere(data) => Tested(c, Sending(data))
    case ShutsDown => ShutdownOnLoop(c)
    case ShutsDownElsewhere => Tested(c, Stopping)
    case Acts(i) => Act(c, i)
    case Runs => RunTask(c)
    case Transmits(w, n) => Transmit(c, w, n)
    case Completes(w) => Complete(c, w)
    case Fails(w) => Fail(c, w)
    case Closes => Close(c)
  }

  // -------------------------------------------------------------- invariants

  /** Not an empty append to an empty buffer of a connection that would still take it. */
  predicate AppendIsSeen(c: Sender, data: seq<byte>) {
    data != [] || c.output != [] || c.state == Disconnected
  }

  /** No empty append to an empty buffer, which would start a write that later appends cannot see. */
  predicate Harmless(c: Sender, e: Event) {
    && (e.Sends? && c.state == Connected ==> AppendIsSeen(c, e.data))
    && (e.Runs? && c.tasks != [] && c.tasks[0].SendTask? ==> AppendIsSeen(c, c.tasks[0].data))
  }

  /** Nobody sends nothing. */
  predicate NonEmptySend(e: Event) {
    (e.Sends? ==> e.data != []) && (e.SendsElsewhere? ==> e.data != [])
  }

  predicate NonEmptyTasks(c: Sender) {
    && (forall t :: t in c.tasks && t.SendTask? ==> t.data != [])
    && (forall call :: call in c.calls && call.Sending? ==> call.data != [])
  }

  /** What was accepted is what is confirmed followed by what still waits. */
  predicate Conserved(c: Sender) {
    c.confirmed <= |c.accepted| && c.accepted[c.confirmed..] == c.output
  }

  /** One write is outstanding exactly while bytes wait, and none after an error. */
  predicate SingleWriter(c: Sender) {
    if c.failed then c.writes == [] && c.output != [] else
      |c.writes| == (if c.output == [] then 0 else 1)
  }

  /** The kernel has been handed exactly the confirmed bytes and the part taken since. */
  predicate WireInOrder(c: Sender) {
    && (|c.writes| == 1 ==>
          var write := c.writes[0];
          && write.Valid() && write.snapshot <= c.output
          && c.confirmed <= |c.accepted|
          && c.wire == c.accepted[..c.confirmed] + write.snapshot[..write.sent])
    && (c.writes == [] && !c.failed ==> c.wire == c.accepted)
    && c.wire <= c.accepted
  }

  predicate Sound(c: Sender) {
    Conserved(c) && SingleWriter(c) && WireInOrder(c)
  }

  lemma SoundKept(c: Sender, e: Event)
    requires Sound(c) && Possible(c, e) && Harmless(c, e)
    ensures Asserted(c, e) && Sound(Apply(c, e))
    ensures c.failed ==> Apply(c, e).failed
    ensures c.accepted <= Apply(c, e).accepted && c.wire <= Apply(c, e).wire
  {
    hide Sound, Transmit, Complete, Fail, SendInThisThread;
    match e
    case Sends(data) => if c.state == Connected { SendKeeps(c, data); }
    case Runs =>
      var rest := c.(tasks := c.tasks[1..]);
      SameBytes(c, rest);
      if c.tasks[0].SendTask? { SendKeeps(rest, c.tasks[0].data); } else { SameBytes(rest, Apply(c, e)); }
    case Transmits(w, n) => TransmitKeeps(c, w, n);
    case Completes(w) => CompleteKeeps(c, w);
    case Fails(w) => FailKeeps(c, w);
    case _ => SameBytes(c, Apply(c, e));
  }

  /** Sound is about the bytes, whatever the state and the tasks are. */
  lemma SameBytes(c: Sender, d: Sender)
    requires Sound(c)
    requires d.output == c.output && d.writes == c.writes && d.failed == c.failed
    requires d.accepted == c.accepted && d.confirmed == c.confirmed && d.wire == c.wire
    ensures Sound(d)
  {
  }

  /** Only an empty append to an empty buffer ever breaks the invariant. */
  lemma SoundKeptIff(c: Sender, e: Event)
    requires Sound(c) && Possible(c, e)
    ensures Asserted(c, e) && Sound(Apply(c, e)) <==> Harmless(c, e)
  {
    if Harmless(c, e) {
      SoundKept(c, e);
    } else {
      assert c.output == [] && !c.failed;
    }
  }

  lemma SendKeeps(c: Sender, data: seq<byte>)
    requires Sound(c) && AppendIsSeen(c, data)
    ensures Sound(SendInThisThread(c, data))
    ensures c.accepted <= SendInThisThread(c, data).accepted
    ensures SendInThisThread(c, data).wire == c.wire && SendInThisThread(c, data).failed == c.failed
  {
    var d := SendInThisThread(c, data);
    if c.state != Disconnected {
      assert d.accepted[d.confirmed..] == c.accepted[c.confirmed..] + data;
      assert d.accepted[..d.confirmed] == c.accepted[..c.confirmed];
      if c.output == [] {
        assert c.confirmed == |c.accepted| && c.accepted[..c.confirmed] == c.accepted;
        assert d.writes == [Write(data, 0)];
        assert d.wire == c.wire + [];
      }
    }
  }

  lemma FailKeeps(c: Sender, w: nat)
    requires Sound(c) && Possible(c, Fails(w))
    ensures Sound(Fail(c, w))
    ensures Fail(c, w).failed && Fail(c, w).accepted == c.accepted && Fail(c, w).wire == c.wire
  {
    assert Without(c.writes, w) == [];
  }

  lemma TransmitKeeps(c: Sender, w: nat, n: nat)
    requires Sound(c) && Possible(c, Transmits(w, n))
    ensures Sound(Transmit(c, w, n))
    ensures Transmit(c, w, n).failed == c.failed && Transmit(c, w, n).accepted == c.accepted
    ensures c.wire <= Transmit(c, w, n).wire
  {
    var write, d := c.writes[w], Transmit(c, w, n);
    assert w == 0 && d.writes == [write.(sent := write.sent + n)];
    Extended(c.accepted[..c.confirmed], write.snapshot, write.sent, n);
    PrefixOfWaiting(c, write.snapshot, write.sent + n);
  }

  lemma Extended(front: seq<byte>, s: seq<byte>, from: nat, n: nat)
    requires from + n <= |s|
    ensures front + s[..from] + s[from..from + n] == front + s[..from + n]
  {
    assert s[..from + n] == s[..from] + s[from..from + n];
  }

  lemma PrefixOfWaiting(c: Sender, snapshot: seq<byte>, n: nat)
    requires Conserved(c) && snapshot <= c.output && n <= |snapshot|
    ensures c.accepted[..c.confirmed] + snapshot[..n] <= c.accepted
  {
    assert c.accepted == c.accepted[..c.confirmed] + c.output;
    assert snapshot[..n] == c.output[..n];
  }

  lemma CompleteKeeps(c: Sender, w: nat)
    requires Sound(c) && Possible(c, Completes(w))
    ensures c.writes[w].sent <= |c.output| && Sound(Complete(c, w))
    ensures !c.failed && !Complete(c, w).failed
    ensures Complete(c, w).accepted == c.accepted && Complete(c, w).wire == c.wire
  {
    var write := c.writes[w];
    assert w == 0 && Without(c.writes, w) == [];
    var confirmed := c.confirmed + write.sent;
    assert c.accepted[confirmed..] == c.accepted[c.confirmed..][write.sent..];
    assert c.accepted[..confirmed] == c.accepted[..c.confirmed] + c.output[..write.sent];
    assert write.snapshot[..write.sent] == c.output[..write.sent];
    if c.output[write.sent..] == [] {
      assert c.accepted[..confirmed] == c.accepted;
    } else {
      assert c.output[write.sent..][..0] == [];
    }
  }

  /** The bytes of the posted sends, in the order in which they will run. */
  function Queued(tasks: seq<Task>): seq<byte> {
    if tasks == [] then [] else
      (match tasks[0] case SendTask(data) => data case ShutdownTask => []) + Queued(tasks[1..])
  }

  lemma {:induction false} QueuedThen(tasks: seq<Task>, t: Task)
    ensures Queued(tasks + [t]) == Queued(tasks) + Queued([t])
  {
    if tasks == [] {
      assert tasks + [t] == [t];
      assert [] + Queued([t]) == Queued([t]);
    } else {
      QueuedThen(tasks[1..], t);
      assert (tasks + [t])[1..] == tasks[1..] + [t];
      var first := match tasks[0] case SendTask(data) => data case ShutdownTask => [];
      assert first + (Queued(tasks[1..]) + Queued([t])) == first + Queued(tasks[1..]) + Queued([t]);
    }
  }

  /**
   A connected connection drops nothing: a send on the loop is accepted at once, one from
   another thread joins the queue when it acts, and running the queue moves bytes from it
   to the accepted ones; only kDisconnected gives up writing.
   */
  lemma NothingDropped(c: Sender, e: Event)
    requires Possible(c, e) && Asserted(c, e)
    ensures e.Sends? && c.state == Connected ==> Apply(c, e).accepted == c.accepted + e.data
    ensures e.SendsElsewhere? && c.state == Connected ==> Apply(c, e).calls == c.calls + [Sending(e.data)]
    ensures e.Acts? && c.calls[e.i].Sending? ==>
      Queued(Apply(c, e).tasks) == Queued(c.tasks) + c.calls[e.i].data
    ensures e.Acts? && !c.calls[e.i].Sending? ==> Queued(Apply(c, e).tasks) == Queued(c.tasks)
    ensures e.Runs? && c.state != Disconnected ==>
      Apply(c, e).accepted + Queued(Apply(c, e).tasks) == c.accepted + Queued(c.tasks)
    ensures !e.Sends? && !e.Runs? ==> Apply(c, e).accepted == c.accepted
    ensures !e.Acts? && !e.Runs? ==> Apply(c, e).tasks == c.tasks
    ensures forall call :: call in c.calls && !(e.Acts? && c.calls[e.i] == call) ==> call in Apply(c, e).calls
  {
    if e.Acts? {
      QueuedByAct(c, e.i);
      OthersStay(c, e.i);
    }
    if e.Runs? {
      var rest := Queued(c.tasks[1..]);
      match c.tasks[0]
      case SendTask(data) => assert c.accepted + data + rest == c.accepted + (data + rest);
      case ShutdownTask => assert [] + rest == rest;
    }
  }

  lemma QueuedByAct(c: Sender, i: nat)
    requires i < |c.calls|
    ensures Queued(Act(c, i).tasks) == Queued(c.tasks) + if c.calls[i].Sending? then c.calls[i].data else []
    ensures !c.calls[i].Sending? ==> Queued(Act(c, i).tasks) == Queued(c.tasks)
  {
    match c.calls[i]
    case Sending(data) =>
      QueuedThen(c.tasks, SendTask(data));
      assert [SendTask(data)][1..] == [] && data + [] == data;
    case Posting =>
      QueuedThen(c.tasks, ShutdownTask);
      assert [ShutdownTask][1..] == [];
    case Stopping =>
  }

  lemma OthersStay(c: Sender, i: nat)
    requires i < |c.calls|
    ensures forall call :: call in c.calls && call != c.calls[i] ==> call in Act(c, i).calls
  {
    forall call | call in c.calls && call != c.calls[i] ensures call in Act(c, i).calls {
      var j :| 0 <= j < |c.calls| && c.calls[j] == call;
      assert Act(c, i).calls[if j < i || c.calls[i].Stopping? then j else j - 1] == call;
    }
  }

  // -------------------------------------------------------------------- runs

  ghost predicate Legal(c: Sender, es: seq<Event>)
    decreases |es|
  {
    es == [] || (Possible(c, es[0]) && (Asserted(c, es[0]) ==> Legal(Apply(c, es[0]), es[1..])))
  }

  /** No assertion of the code fails along the run. */
  ghost predicate Safe(c: Sender, es: seq<Event>)
    requires Legal(c, es)
    decreases |es|
  {
    es == [] || (Asserted(c, es[0]) && Safe(Apply(c, es[0]), es[1..]))
  }

  ghost function Run(c: Sender, es: seq<Event>): Sender
    requires Legal(c, es) && Safe(c, es)
    decreases |es|
  {
    if es == [] then c else Run(Apply(c, es[0]), es[1..])
  }

  ghost predicate HarmlessRun(c: Sender, es: seq<Event>)
    requires Legal(c, es)
    decreases |es|
  {
    es == [] || (Harmless(c, es[0]) && (Asserted(c, es[0]) ==> HarmlessRun(Apply(c, es[0]), es[1..])))
  }

  /** Every assertion holds along the run, and the invariant at each of its states. */
  ghost predicate SoundThroughout(c: Sender, es: seq<Event>)
    requires Legal(c, es)
    decreases |es|
  {
    Sound(c) && (es == [] || (Asserted(c, es[0]) && SoundThroughout(Apply(c, es[0]), es[1..])))
  }

  /**
   Output conservation and single writer, over every run without an empty append to an
   empty buffer, from whatever threads the calls come and however far each write gets.
   */
  lemma {:induction false} OutputConserved(c: Sender, es: seq<Event>)
    requires Sound(c) && Legal(c, es) && HarmlessRun(c, es)
    ensures Safe(c, es)
    ensures Sound(Run(c, es))
    ensures c.failed ==> Run(c, es).failed
    decreases |es|
  {
    hide Sound, Possible, Asserted, Apply, Harmless;
    if es != [] {
      SoundKept(c, es[0]);
      OutputConserved(Apply(c, es[0]), es[1..]);
    }
  }

  /** Exactly those runs keep the promise at every step. */
  lemma {:induction false} OutputConservedIff(c: Sender, es: seq<Event>)
    requires Sound(c) && Legal(c, es)
    ensures SoundThroughout(c, es) <==> HarmlessRun(c, es)
    decreases |es|
  {
    hide Sound, Possible, Asserted, Apply, Harmless;
    if es != [] {
      SoundKeptIff(c, es[0]);
      if Harmless(c, es[0]) {
        OutputConservedIff(Apply(c, es[0]), es[1..]);
      } else if Asserted(c, es[0]) {
        UnsoundAtOnce(Apply(c, es[0]), es[1..]);
      }
    }
  }

  lemma UnsoundAtOnce(c: Sender, es: seq<Event>)
    requires !Sound(c) && Legal(c, es)
    ensures !SoundThroughout(c, es)
  {
    hide Sound;
  }

  /** Among them are all runs in which nobody sends nothing. */
  lemma {:induction false} NonEmptySendsAreHarmless(c: Sender, es: seq<Event>)
    requires NonEmptyTasks(c) && Legal(c, es)
    requires forall e :: e in es ==> NonEmptySend(e)
    ensures HarmlessRun(c, es)
    decreases |es|
  {
    hide Apply, Asserted, Possible, NonEmptyTasks, Harmless, NonEmptySend;
    if es != [] {
      assert es[0] in es;
      NonEmptyStep(c, es[0]);
      if Asserted(c, es[0]) {
        NonEmptySendsAreHarmless(Apply(c, es[0]), es[1..]);
      }
    }
  }

  lemma NonEmptyStep(c: Sender, e: Event)
    requires NonEmptyTasks(c) && Possible(c, e) && NonEmptySend(e)
    ensures Harmless(c, e)
    ensures Asserted(c, e) ==> NonEmptyTasks(Apply(c, e))
  {
  }

  lemma InitiallySound()
    ensures Sound(INITIAL)
  {
  }

  // -------------------------------------------------------- graceful shutdown

  /** The step at which a call of shutdown() takes effect: its test and set, or only its set. */
  predicate TakesEffect(c: Sender, e: Event) {
    || (e.ShutsDown? && c.state == Connected)
    || (e.Acts? && e.i < |c.calls| && c.calls[e.i].Stopping? && c.limit == NoLimit)
  }

  /** The calls on other threads between their test and their act, apart from that of e. */
  function OtherCalls(c: Sender, e: Event): seq<Call> {
    if e.Acts? && e.i < |c.calls| then Without(c.calls, e.i) else c.calls
  }

  predicate NoneSending(calls: seq<Call>) {
    forall call :: call in calls ==> !call.Sending?
  }

  /**
   When shutdown() takes effect, no send from another thread is queued or about to be. If
   anything can still be written, no other call is between its test and its act, and
   shutdown() was called on the loop or finds nothing left to write.
   */
  predicate Orderly(c: Sender, e: Event) {
    TakesEffect(c, e) ==>
      && c.tasks == [] && NoneSending(OtherCalls(c, e))
      && (c.failed || (OtherCalls(c, e) == [] && (e.ShutsDown? || c.output == [])))
  }

  /** The second half of a shutdown() from another thread is all that is still to come. */
  predicate ShutdownDue(c: Sender) {
    && ((c.calls == [Posting] && c.tasks == []) || (c.calls == [] && c.tasks == [ShutdownTask]))
    && c.shutdowns == 0 && c.output == []
  }

  predicate NothingToSend(c: Sender) {
    NoneSending(c.calls) && forall t :: t in c.tasks ==> t.ShutdownTask?
  }

  /** What holds from shutdown() on, whatever happens to the connection afterwards. */
  predicate Graceful(c: Sender) {
    && (c.limit == NoLimit ==>
          c.shutdowns == 0 && Posting !in c.calls && forall t :: t in c.tasks ==> t.SendTask?)
    && (c.state == Connecting || c.state == Connected ==> c.limit == NoLimit)
    && (c.state == Disconnecting ==> c.limit != NoLimit)
    && (c.limit != NoLimit ==>
          && |c.accepted| == c.limit.bytes && NothingToSend(c)
          && (c.failed || (c.calls == [] && c.tasks == []) || ShutdownDue(c)))
    && c.shutdowns <= 1
    && (c.shutdowns == 1 ==> c.confirmed == |c.accepted| && c.wire == c.accepted && c.writes == [])
    && (c.state == Disconnecting && !c.failed && c.output == [] ==> c.shutdowns == 1 || ShutdownDue(c))
  }

  lemma GracefulKept(c: Sender, e: Event)
    requires Sound(c) && Graceful(c)
    requires Possible(c, e) && Harmless(c, e) && Orderly(c, e)
    ensures Asserted(c, e) && Graceful(Apply(c, e))
    ensures c.limit != NoLimit ==> Apply(c, e).limit == c.limit && Apply(c, e).accepted == c.accepted
  {
    hide WireInOrder;
    match e
    case Runs => GracefulTask(c);
    case Acts(i) => GracefulAct(c, i);
    case Completes(w) => GracefulCompletion(c, w);
    case Transmits(w, n) => GracefulTransmission(c, w, n);
    case Fails(w) => assert Without(c.writes, w) == [];
    case _ => ShutdownIsComplete(c);
  }

  lemma GracefulAct(c: Sender, i: nat)
    requires Sound(c) && Graceful(c) && i < |c.calls| && Orderly(c, Acts(i))
    ensures Graceful(Act(c, i))
    ensures c.limit != NoLimit ==> Act(c, i).limit == c.limit && Act(c, i).accepted == c.accepted
  {
    hide WireInOrder;
    ShutdownIsComplete(c);
    assert c.calls[i] in c.calls;
    if c.calls[i].Stopping? && c.limit == NoLimit {
      forall call | call in c.calls[i := Posting] ensures !call.Sending? {
        var j :| 0 <= j < |c.calls| && c.calls[i := Posting][j] == call;
        assert j != i ==> call == Without(c.calls, i)[if j < i then j else j - 1];
      }
    }
  }

  lemma GracefulTask(c: Sender)
    requires Sound(c) && Graceful(c) && c.tasks != []
    ensures Graceful(RunTask(c))
    ensures c.limit != NoLimit ==> RunTask(c).limit == c.limit && RunTask(c).accepted == c.accepted
  {
    hide WireInOrder;
    assert c.tasks[0] in c.tasks;
    ShutdownIsComplete(c);
  }

  lemma ShutdownIsComplete(c: Sender)
    requires Sound(c)
    ensures c.output == [] && !c.failed ==> c.confirmed == |c.accepted| && c.wire == c.accepted && c.writes == []
    ensures c.failed ==> c.output != []
  {
  }

  lemma GracefulTransmission(c: Sender, w: nat, n: nat)
    requires Sound(c) && Graceful(c) && Possible(c, Transmits(w, n))
    ensures Graceful(Transmit(c, w, n))
  {
    assert c.writes != [];
  }

  lemma GracefulCompletion(c: Sender, w: nat)
    requires Sound(c) && Graceful(c) && Possible(c, Completes(w))
    ensures c.writes[w].sent <= |c.output| && Graceful(Complete(c, w))
  {
    hide WireInOrder;
    CompleteKeeps(c, w);
    ShutdownIsComplete(Complete(c, w));
    assert c.writes != [];
  }

  ghost predicate OrderlyRun(c: Sender, es: seq<Event>)
    requires Legal(c, es) && Safe(c, es)
    decreases |es|
  {
    es == [] || (Orderly(c, es[0]) && OrderlyRun(Apply(c, es[0]), es[1..]))
  }

  /**
   Graceful shutdown: the send side is shut down at most once, only when every byte
   accepted before shutdown() is confirmed and on the wire; nothing is accepted
   afterwards; and it is shut down once everything has drained without error before
   a close.
   */
  lemma {:induction false} GracefulShutdown(c: Sender, es: seq<Event>)
    requires Sound(c) && Graceful(c) && Legal(c, es)
    requires HarmlessRun(c, es) && Safe(c, es) && OrderlyRun(c, es)
    ensures Graceful(Run(c, es))
    ensures c.limit != NoLimit ==> Run(c, es).limit == c.limit && Run(c, es).accepted == c.accepted
    decreases |es|
  {
    hide Sound, Graceful, Possible, Asserted, Apply, Orderly, Harmless;
    if es != [] {
      SoundKept(c, es[0]);
      GracefulKept(c, es[0]);
      GracefulShutdown(Apply(c, es[0]), es[1..]);
    }
  }
}
