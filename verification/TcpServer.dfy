/**
 TcpServer and its connections across a base loop and any number of I/O loops, without
 forceClose and before the server is destroyed. Posted tasks are kept without an order:
 whatever order the loops run them in is covered.
 */
module TcpServers {
  import opened Basics
  import opened ConnectionStates
  import N = ConnectionNames

  type Loop = nat
  type ConnId = nat     // connections are numbered in the order in which they were accepted

  datatype Task = ConnectEstablished(c: ConnId) | RemoveConnection(c: ConnId) | ConnectDestroyed(c: ConnId)

  datatype Posted = Posted(loop: Loop, task: Task)

  /** How far a connection has come; history. */
  datatype Phase = Opening | Live | Closing | Removed | Gone

  /**
   reading: an async_read is outstanding. ups, downs and closes count callbacks. stopping
   counts the calls of shutdown() on other threads between their test and their set of
   state_; overwritten is history: such a set came after the connection was closed.
   */
  datatype Conn = Conn(
    name: string, loop: Loop, state: State, reading: bool, ups: nat, downs: nat, closes: nat, phase: Phase,
    stopping: nat, overwritten: bool)

  datatype Server = Server(
    base: Loop,
    name: string,
    ip: string,
    nextConnId: nat,
    connections: map<string, ConnId>,
    conns: seq<Conn>,
    tasks: multiset<Posted>)

  function Started(base: Loop, name: string, ip: string): Server {
    Server(base, name, ip, 1, map[], [], multiset{})
  }

  // ------------------------------------------------------------------- steps

  function Post(s: Server, loop: Loop, task: Task): Server {
    s.(tasks := s.tasks + multiset{Posted(loop, task)})
  }

  function With(s: Server, c: ConnId, conn: Conn): Server
    requires c < |s.conns|
  {
    s.(conns := s.conns[c := conn])
  }

  /** A loop takes the task off its queue. */
  function Without(s: Server, loop: Loop, task: Task): Server {
    s.(tasks := s.tasks - multiset{Posted(loop, task)})
  }

  /** connectEstablished: state_, the callback, and the first readHeader. */
  function Established(s: Server, c: ConnId): Server
    requires c < |s.conns|
  {
    var conn := s.conns[c];
    With(s, c, conn.(state := Connected, ups := conn.ups + 1, reading := true, phase := Live))
  }

  /** newConnection with the socket given to ioLoop; dispatch runs inline on the base loop. */
  function Accepted(s: Server, ioLoop: Loop): Server
    requires s.nextConnId < N.IDS
  {
    var conName := N.Name(s.name, s.ip, s.nextConnId);
    var c := |s.conns|;
    var added := s.(
      nextConnId := (s.nextConnId + 1) % N.IDS,
      connections := s.connections[conName := c],
      conns := s.conns + [Conn(conName, ioLoop, Connecting, false, 0, 0, 0, Opening, 0, false)]);
    if ioLoop == s.base then Established(added, c) else Post(added, ioLoop, ConnectEstablished(c))
  }

  /** removeConnectionInThisThread. */
  function Erased(s: Server, c: ConnId): Server
    requires c < |s.conns|
  {
    var erased := With(s, c, s.conns[c].(phase := Removed)).(connections := s.connections - {s.conns[c].name});
    Post(erased, s.conns[c].loop, ConnectDestroyed(c))
  }

  /** handleClose, whose closeCallback_ is removeConnection, dispatched to the base loop. */
  function Closed(s: Server, c: ConnId): Server
    requires c < |s.conns|
  {
    if s.conns[c].loop == s.base then Erased(Shut(s, c), c) else Post(Shut(s, c), s.base, RemoveConnection(c))
  }

  function Shut(s: Server, c: ConnId): Server
    requires c < |s.conns|
  {
    var conn := s.conns[c];
    With(s, c, conn.(state := Disconnected, reading := false, downs := conn.downs + 1,
                     closes := conn.closes + 1, phase := Closing))
  }

  /** connectDestroyed. */
  function Destroyed(s: Server, c: ConnId): Server
    requires c < |s.conns|
  {
    var conn := s.conns[c];
    With(s, c, if conn.state == Connected
               then conn.(state := Disconnected, downs := conn.downs + 1, phase := Gone)
               else conn.(phase := Gone))
  }

  /** setState(kDisconnecting) in shutdown() on another thread. */
  function ShutdownSet(s: Server, c: ConnId): Server
    requires c < |s.conns| && s.conns[c].stopping > 0
  {
    var conn := s.conns[c];
    With(s, c, conn.(state := Disconnecting, stopping := conn.stopping - 1,
                     overwritten := conn.overwritten || conn.state == Disconnected))
  }

  datatype Event =
    | Accepts(ioLoop: Loop)
    | Runs(loop: Loop, task: Task)
    | ReadFails(c: ConnId)
    | ShutsDown(c: ConnId)         // on its loop, or with nothing between test and set
    | TestsShutdown(c: ConnId)     // on another thread: the test
    | SetsShutdown(c: ConnId)      // and the set, whatever has happened since

  predicate Possible(s: Server, e: Event) {
    match e
    case Accepts(_) => s.nextConnId < N.IDS
    case Runs(loop, task) => Posted(loop, task) in s.tasks && task.c < |s.conns|
    case ReadFails(c) => c < |s.conns| && s.conns[c].reading
    case ShutsDown(c) => c < |s.conns|
    case TestsShutdown(c) => c < |s.conns|
    case SetsShutdown(c) => c < |s.conns| && s.conns[c].stopping > 0
  }

  /** The assertions of the code: loop threads, states, and that erase removes one entry. */
  predicate Asserted(s: Server, e: Event)
    requires Possible(s, e)
  {
    match e
    case Accepts(_) => true
    case Runs(loop, ConnectEstablished(c)) => loop == s.conns[c].loop && s.conns[c].state == Connecting
    case Runs(loop, RemoveConnection(c)) => loop == s.base && s.conns[c].name in s.connections
    case Runs(loop, ConnectDestroyed(c)) => loop == s.conns[c].loop
    case ReadFails(c) =>
      && (s.conns[c].state == Connected || s.conns[c].state == Disconnecting)
      && (s.conns[c].loop == s.base ==> s.conns[c].name in s.connections)
    case _ => true
  }

  function Apply(s: Server, e: Event): Server
    requires Possible(s, e) && Asserted(s, e)
  {
    match e
    case Accepts(ioLoop) => Accepted(s, ioLoop)
    case Runs(loop, task) =>
      var rest := Without(s, loop, task);
      (match task
       case ConnectEstablished(c) => Established(rest, c)
       case RemoveConnection(c) => Erased(rest, c)
       case ConnectDestroyed(c) => Destroyed(rest, c))
    case ReadFails(c) => Closed(s, c)
    case ShutsDown(c) =>
      if s.conns[c].state == Connected then With(s, c, s.conns[c].(state := Disconnecting)) else s
    case TestsShutdown(c) =>
      if s.conns[c].state == Connected then With(s, c, s.conns[c].(stopping := s.conns[c].stopping + 1)) else s
    case SetsShutdown(c) => ShutdownSet(s, c)
  }

  // --------------------------------------------------------------- invariant

  /** The one task a connection is waiting for, and where. */
  predicate Expected(s: Server, p: Posted) {
    && p.task.c < |s.conns|
    && var conn := s.conns[p.task.c];
    match p.task
    case ConnectEstablished(_) => conn.phase == Opening && p.loop == conn.loop
    case RemoveConnection(_) => conn.phase == Closing && p.loop == s.base
    case ConnectDestroyed(_) => conn.phase == Removed && p.loop == conn.loop
  }

  predicate Filed(conn: Conn) {
    conn.phase == Opening || conn.phase == Live || conn.phase == Closing
  }

  /** What the fields and callback counts are in each phase. */
  predicate InPhase(conn: Conn) {
    match conn.phase
    case Opening =>
      && conn.state == Connecting && conn.stopping == 0 && !conn.overwritten
      && !conn.reading && conn.ups == conn.downs == conn.closes == 0
    case Live =>
      && (conn.state == Connected || conn.state == Disconnecting) && !conn.overwritten
      && conn.reading && conn.ups == 1 && conn.downs == conn.closes == 0
    case _ =>
      && conn.state == (if conn.overwritten then Disconnecting else Disconnected)
      && !conn.reading && conn.ups == conn.downs == conn.closes == 1
  }

  /** Every pending task is expected, and every expected task is pending exactly once. */
  ghost predicate TasksExpected(s: Server) {
    forall p: Posted :: s.tasks[p] == if Expected(s, p) then 1 else 0
  }

  predicate PhasesHold(s: Server) {
    forall c :: 0 <= c < |s.conns| ==> InPhase(s.conns[c])
  }

  /** connections_ files exactly the connections not yet removed, each under its own name. */
  predicate FiledByName(s: Server) {
    && (forall c :: 0 <= c < |s.conns| && Filed(s.conns[c]) ==>
          s.conns[c].name in s.connections && s.connections[s.conns[c].name] == c)
    && (forall n :: n in s.connections ==>
          s.connections[n] < |s.conns| && Filed(s.conns[s.connections[n]]) && s.conns[s.connections[n]].name == n)
  }

  ghost predicate Sound(s: Server) {
    TasksExpected(s) && PhasesHold(s) && FiledByName(s) && s.nextConnId < N.IDS
  }

  /** The name about to be printed is not in use. */
  predicate FreshName(s: Server, e: Event) {
    e.Accepts? && s.nextConnId < N.IDS ==> N.Name(s.name, s.ip, s.nextConnId) !in s.connections
  }

  lemma SoundKept(s: Server, e: Event)
    requires Sound(s) && Possible(s, e) && FreshName(s, e)
    ensures Asserted(s, e) && Sound(Apply(s, e))
  {
    hide Sound, Accepted, Erased, Closed, Established, Destroyed, Expected, N.Name;
    match e
    case Accepts(ioLoop) => AcceptKeeps(s, ioLoop);
    case Runs(loop, task) =>
      PendingIsExpected(s, Posted(loop, task));
      TaskKeeps(s, loop, task);
    case ReadFails(c) => CloseKeeps(s, c);
    case SetsShutdown(c) => SetKeeps(s, c);
    case _ => TestKeeps(s, e);
  }

  lemma TestKeeps(s: Server, e: Event)
    requires Sound(s) && Possible(s, e) && (e.ShutsDown? || e.TestsShutdown?)
    ensures Sound(Apply(s, e))
  {
    assert InPhase(s.conns[e.c]);
    hide Sound;
    var conn := s.conns[e.c];
    if conn.state == Connected {
      SamePhaseKeeps(s, e.c, if e.ShutsDown? then conn.(state := Disconnecting)
                                             else conn.(stopping := conn.stopping + 1));
    }
  }

  /** Nothing but name, loop and phase ties a connection to the tasks and to connections_. */
  lemma SamePhaseKeeps(s: Server, c: ConnId, conn: Conn)
    requires Sound(s) && c < |s.conns| && InPhase(conn)
    requires conn.name == s.conns[c].name && conn.loop == s.conns[c].loop && conn.phase == s.conns[c].phase
    ensures Sound(With(s, c, conn))
  {
  }

  lemma SetKeeps(s: Server, c: ConnId)
    requires Sound(s) && Possible(s, SetsShutdown(c))
    ensures Sound(ShutdownSet(s, c))
  {
    assert InPhase(s.conns[c]);
    hide Sound;
    var conn := s.conns[c];
    SamePhaseKeeps(s, c, conn.(state := Disconnecting, stopping := conn.stopping - 1,
                               overwritten := conn.overwritten || conn.state == Disconnected));
  }

  lemma AcceptKeeps(s: Server, ioLoop: Loop)
    requires Sound(s) && FreshName(s, Accepts(ioLoop))
    ensures Sound(Accepted(s, ioLoop))
  {
    AcceptKeepsTasks(s, ioLoop);
    AcceptKeepsPhases(s, ioLoop);
    hide N.Name, TasksExpected, PhasesHold, InPhase;
  }

  lemma AcceptKeepsPhases(s: Server, ioLoop: Loop)
    requires PhasesHold(s) && s.nextConnId < N.IDS
    ensures PhasesHold(Accepted(s, ioLoop))
  {
    hide N.Name;
  }

  lemma AcceptKeepsTasks(s: Server, ioLoop: Loop)
    requires TasksExpected(s) && s.nextConnId < N.IDS
    ensures TasksExpected(Accepted(s, ioLoop))
  {
    hide N.Name;
  }

  lemma TaskKeeps(s: Server, loop: Loop, task: Task)
    requires Sound(s) && Possible(s, Runs(loop, task)) && Expected(s, Posted(loop, task))
    ensures Asserted(s, Runs(loop, task)) && Sound(Apply(s, Runs(loop, task)))
  {
    hide Sound, Established, Erased, Destroyed;
    match task
    case ConnectEstablished(c) => EstablishedKeeps(s, loop, c);
    case RemoveConnection(c) => EraseKeeps(s, c);
    case ConnectDestroyed(c) => DestroyKeeps(s, loop, c);
  }

  lemma EstablishedKeeps(s: Server, loop: Loop, c: ConnId)
    requires Sound(s) && Expected(s, Posted(loop, ConnectEstablished(c)))
    ensures s.conns[c].state == Connecting
    ensures Sound(Established(Without(s, loop, ConnectEstablished(c)), c))
  {
    assert InPhase(s.conns[c]);
  }

  lemma EraseKeeps(s: Server, c: ConnId)
    requires Sound(s) && Expected(s, Posted(s.base, RemoveConnection(c)))
    ensures s.conns[c].name in s.connections
    ensures Sound(Erased(Without(s, s.base, RemoveConnection(c)), c))
  {
    assert InPhase(s.conns[c]);
    EraseKeepsTasks(s, c);
    hide TasksExpected;
  }

  lemma EraseKeepsTasks(s: Server, c: ConnId)
    requires TasksExpected(s) && Expected(s, Posted(s.base, RemoveConnection(c)))
    ensures TasksExpected(Erased(Without(s, s.base, RemoveConnection(c)), c))
  {
  }

  /**
   connectDestroyed finds the connection disconnected, or overwritten by a late shutdown(),
   so it never calls back a second time.
   */
  lemma DestroyKeeps(s: Server, loop: Loop, c: ConnId)
    requires Sound(s) && Expected(s, Posted(loop, ConnectDestroyed(c)))
    ensures s.conns[c].state == if s.conns[c].overwritten then Disconnecting else Disconnected
    ensures Sound(Destroyed(Without(s, loop, ConnectDestroyed(c)), c))
  {
    assert InPhase(s.conns[c]);
    DestroyKeepsTasks(s, loop, c);
    hide TasksExpected;
  }

  lemma DestroyKeepsTasks(s: Server, loop: Loop, c: ConnId)
    requires TasksExpected(s) && Expected(s, Posted(loop, ConnectDestroyed(c)))
    ensures TasksExpected(Destroyed(Without(s, loop, ConnectDestroyed(c)), c))
  {
  }

  /** What handleClose does before removeConnection is dispatched, as if it were posted. */
  lemma ClosingKeeps(s: Server, c: ConnId)
    requires Sound(s) && Possible(s, ReadFails(c))
    ensures s.conns[c].phase == Live
    ensures Sound(Post(Shut(s, c), s.base, RemoveConnection(c)))
  {
    assert InPhase(s.conns[c]);
  }

  lemma CloseKeeps(s: Server, c: ConnId)
    requires Sound(s) && Possible(s, ReadFails(c))
    ensures Asserted(s, ReadFails(c)) && Sound(Closed(s, c))
  {
    hide Sound, Erased;
    ClosingKeeps(s, c);
    LiveIsFiled(s, c);
    if s.conns[c].loop == s.base {
      var posted := Post(Shut(s, c), s.base, RemoveConnection(c));
      PendingIsExpected(posted, Posted(s.base, RemoveConnection(c)));
      EraseKeeps(posted, c);
      assert Without(posted, s.base, RemoveConnection(c)) == Shut(s, c);
    }
  }

  lemma LiveIsFiled(s: Server, c: ConnId)
    requires Sound(s) && c < |s.conns| && s.conns[c].phase == Live
    ensures s.conns[c].name in s.connections
    ensures s.conns[c].state == Connected || s.conns[c].state == Disconnecting
  {
    assert InPhase(s.conns[c]);
  }

  lemma PendingIsExpected(s: Server, p: Posted)
    requires Sound(s) && p in s.tasks
    ensures Expected(s, p)
  {
  }

  // --------------------------------------------------------- loop confinement

  /** The loop whose thread takes the step; the two halves of a call from another thread have none. */
  function LoopOf(s: Server, e: Event): Option<Loop>
    requires Possible(s, e)
  {
    match e
    case Accepts(_) => Some(s.base)
    case Runs(loop, _) => Some(loop)
    case ReadFails(c) => Some(s.conns[c].loop)
    case ShutsDown(c) => Some(s.conns[c].loop)
    case _ => None
  }

  /** What only the connection's own loop may change: connections stay on their loop, and the rest alike. */
  predicate Untouched(before: Conn, after: Conn) {
    && after.state == before.state && after.reading == before.reading
    && after.ups == before.ups && after.downs == before.downs && after.closes == before.closes
  }

  /** A step on one loop leaves the connections of all others as they are. */
  ghost predicate Confined(s: Server, t: Server, on: Option<Loop>) {
    && t.base == s.base && |s.conns| <= |t.conns|
    && (forall c :: 0 <= c < |s.conns| ==> t.conns[c].loop == s.conns[c].loop && t.conns[c].name == s.conns[c].name)
    && (forall c :: 0 <= c < |s.conns| && on.Some? && s.conns[c].loop != on.value ==>
          Untouched(s.conns[c], t.conns[c]))
    && (on != Some(s.base) ==> t.connections == s.connections && |t.conns| == |s.conns|)
  }

  /** The set of a call from another thread changes nothing but state_. */
  predicate OnlyStateSet(before: Conn, after: Conn) {
    after == before.(state := after.state, stopping := after.stopping, overwritten := after.overwritten)
  }

  /**
   Each connection is touched on its own loop only, and connections_ on the base loop
   only; a call of shutdown() from another thread sets state_ and nothing else.
   */
  lemma LoopsConfined(s: Server, e: Event)
    requires Sound(s) && Possible(s, e) && FreshName(s, e)
    ensures Asserted(s, e) && Confined(s, Apply(s, e), LoopOf(s, e))
    ensures e.TestsShutdown? || e.SetsShutdown? ==>
      && Apply(s, e).tasks == s.tasks
      && forall c :: 0 <= c < |s.conns| ==> OnlyStateSet(s.conns[c], Apply(s, e).conns[c])
  {
    SoundKept(s, e);
    hide Sound, FreshName, N.Name, Confined, Accepted, Closed, Established, Erased, Destroyed;
    match e
    case Accepts(ioLoop) => AcceptConfined(s, ioLoop);
    case Runs(loop, task) => TaskConfined(s, loop, task);
    case ReadFails(c) => CloseConfined(s, c);
    case _ => ShutdownConfined(s, e);
  }

  lemma ShutdownConfined(s: Server, e: Event)
    requires Possible(s, e) && (e.ShutsDown? || e.TestsShutdown? || e.SetsShutdown?)
    ensures Confined(s, Apply(s, e), LoopOf(s, e))
    ensures e.TestsShutdown? || e.SetsShutdown? ==>
      && Apply(s, e).tasks == s.tasks
      && forall c :: 0 <= c < |s.conns| ==> OnlyStateSet(s.conns[c], Apply(s, e).conns[c])
  {
  }

  lemma AcceptConfined(s: Server, ioLoop: Loop)
    requires s.nextConnId < N.IDS
    ensures Confined(s, Accepted(s, ioLoop), Some(s.base))
  {
    hide N.Name;
  }

  /** The removal of a connection, on the base loop, is the one task on a loop that is not its own. */
  lemma TaskConfined(s: Server, loop: Loop, task: Task)
    requires Possible(s, Runs(loop, task)) && Asserted(s, Runs(loop, task))
    ensures Confined(s, Apply(s, Runs(loop, task)), Some(loop))
  {
    match task
    case ConnectEstablished(c) =>
    case RemoveConnection(c) =>
    case ConnectDestroyed(c) =>
  }

  lemma CloseConfined(s: Server, c: ConnId)
    requires c < |s.conns|
    ensures Confined(s, Closed(s, c), Some(s.conns[c].loop))
  {
  }

  /**
   A new connection belongs to the loop that its socket was given to. On any loop but the
   base it is kConnecting, with no callback yet, and exactly its connectEstablished has been
   posted there; on the base loop it is already up and reading.
   */
  lemma AcceptedOnItsLoop(s: Server, ioLoop: Loop)
    requires s.nextConnId < N.IDS
    ensures var t, c := Accepted(s, ioLoop), |s.conns|;
      && |t.conns| == c + 1 && t.conns[c].loop == ioLoop
      && t.connections == s.connections[t.conns[c].name := c]
      && t.conns[c].downs == 0 && t.conns[c].closes == 0
      && (ioLoop != s.base ==>
            && t.conns[c].state == Connecting && t.conns[c].ups == 0 && !t.conns[c].reading
            && t.tasks == s.tasks + multiset{Posted(ioLoop, ConnectEstablished(c))})
      && (ioLoop == s.base ==>
            && t.conns[c].state == Connected && t.conns[c].ups == 1 && t.conns[c].reading
            && t.tasks == s.tasks)
  {
    hide N.Name;
  }

  /** What is left after a step is what was pending, without the task run and with at most one posted. */
  lemma TasksHandled(s: Server, e: Event)
    requires Sound(s) && Possible(s, e) && FreshName(s, e)
    ensures Asserted(s, e)
    ensures e.Runs? && e.task.RemoveConnection? ==>
      var c := e.task.c;
      Apply(s, e).tasks ==
        s.tasks - multiset{Posted(e.loop, e.task)} + multiset{Posted(s.conns[c].loop, ConnectDestroyed(c))}
    ensures e.Runs? && !e.task.RemoveConnection? ==> Apply(s, e).tasks == s.tasks - multiset{Posted(e.loop, e.task)}
    ensures e.ReadFails? ==>
      var c := e.c;
      Apply(s, e).tasks == s.tasks +
        if s.conns[c].loop == s.base then multiset{Posted(s.base, ConnectDestroyed(c))}
        else multiset{Posted(s.base, RemoveConnection(c))}
  {
    SoundKept(s, e);
    hide Sound, FreshName, N.Name;
  }

  // --------------------------------------------------------------------- names

  /** Connection c was given the c-th id after 1, in 32 bits. */
  function IdOf(c: nat): (id: nat)
    ensures id < N.IDS
  {
    (1 + c) % N.IDS
  }

  predicate Numbered(s: Server) {
    && s.nextConnId == IdOf(|s.conns|)
    && forall c :: 0 <= c < |s.conns| ==> s.conns[c].name == N.Name(s.name, s.ip, IdOf(c))
  }

  /** Nothing but newConnection names a connection or moves the counter. */
  predicate SameNames(s: Server, t: Server) {
    && t.base == s.base && t.name == s.name && t.ip == s.ip && t.nextConnId == s.nextConnId
    && |t.conns| == |s.conns|
    && forall c :: 0 <= c < |s.conns| ==> t.conns[c].name == s.conns[c].name
  }

  lemma NamesKept(s: Server, e: Event)
    requires Possible(s, e) && Asserted(s, e) && !e.Accepts?
    ensures SameNames(s, Apply(s, e))
  {
  }

  lemma NumberedKept(s: Server, e: Event)
    requires Numbered(s) && Possible(s, e) && Asserted(s, e)
    ensures Numbered(Apply(s, e))
    ensures Apply(s, e).ip == s.ip
    ensures |Apply(s, e).conns| == |s.conns| + (if e.Accepts? then 1 else 0)
  {
    hide N.Name, IdOf;
    if e.Accepts? {
      NextId(|s.conns|);
    } else {
      hide Apply;
      NamesKept(s, e);
    }
  }

  lemma NextId(c: nat)
    ensures (IdOf(c) + 1) % N.IDS == IdOf(c + 1)
  {
  }

  /**
   The next name is in use exactly if some connection still filed was accepted a whole
   number of turns of the 32-bit counter ago.
   */
  lemma FreshNameIff(s: Server, ioLoop: Loop)
    requires Sound(s) && Numbered(s) && |s.ip| <= N.LONGEST_ADDRESS
    ensures FreshName(s, Accepts(ioLoop)) <==>
      forall c :: 0 <= c < |s.conns| && Filed(s.conns[c]) ==> (|s.conns| - c) % N.IDS != 0
  {
    hide N.Name;
    forall c | 0 <= c < |s.conns| && Filed(s.conns[c])
      ensures s.conns[c].name == N.Name(s.name, s.ip, s.nextConnId) <==> (|s.conns| - c) % N.IDS == 0
    {
      SameIdIff(c, |s.conns|);
      if s.conns[c].name == N.Name(s.name, s.ip, s.nextConnId) {
        N.NamesInjective(s.name, s.ip, IdOf(c), s.nextConnId);
      }
    }
  }

  lemma SameIdIff(c: nat, d: nat)
    requires c <= d
    ensures IdOf(c) == IdOf(d) <==> (d - c) % N.IDS == 0
  {
    var q := (1 + d) / N.IDS - (1 + c) / N.IDS;
    assert d - c == N.IDS * q + (IdOf(d) - IdOf(c));
  }

  /** Accepting under a name in use is what breaks the invariant, and nothing else does. */
  lemma AcceptKeepsIff(s: Server, ioLoop: Loop)
    requires Sound(s)
    ensures Sound(Accepted(s, ioLoop)) <==> FreshName(s, Accepts(ioLoop))
  {
    hide N.Name;
    var n := N.Name(s.name, s.ip, s.nextConnId);
    if n in s.connections {
      var earlier, t := s.connections[n], Accepted(s, ioLoop);
      assert t.conns[earlier] == s.conns[earlier] && t.connections[n] == |s.conns|;
    } else {
      AcceptKeeps(s, ioLoop);
    }
  }

  // ---------------------------------------------------------------------- runs

  ghost predicate Legal(s: Server, es: seq<Event>)
    decreases |es|
  {
    es == [] || (Possible(s, es[0]) && (Asserted(s, es[0]) ==> Legal(Apply(s, es[0]), es[1..])))
  }

  ghost predicate Safe(s: Server, es: seq<Event>)
    requires Legal(s, es)
    decreases |es|
  {
    es == [] || (Asserted(s, es[0]) && Safe(Apply(s, es[0]), es[1..]))
  }

  ghost function Run(s: Server, es: seq<Event>): Server
    requires Legal(s, es) && Safe(s, es)
    decreases |es|
  {
    if es == [] then s else Run(Apply(s, es[0]), es[1..])
  }

  ghost predicate FreshNames(s: Server, es: seq<Event>)
    requires Legal(s, es)
    decreases |es|
  {
    es == [] || (FreshName(s, es[0]) && (Asserted(s, es[0]) ==> FreshNames(Apply(s, es[0]), es[1..])))
  }

  /** No assertion fails along any run in which no name is reused while it is in use. */
  lemma {:induction false} LifecycleKept(s: Server, es: seq<Event>)
    requires Sound(s) && Legal(s, es) && FreshNames(s, es)
    ensures Safe(s, es) && Sound(Run(s, es))
    decreases |es|
  {
    hide Sound, Possible, Asserted, Apply, FreshName;
    if es != [] {
      SoundKept(s, es[0]);
      LifecycleKept(Apply(s, es[0]), es[1..]);
    }
  }

  /** Every assertion holds along the run, and the invariant at each of its states. */
  ghost predicate SoundThroughout(s: Server, es: seq<Event>)
    requires Legal(s, es)
    decreases |es|
  {
    Sound(s) && (es == [] || (Asserted(s, es[0]) && SoundThroughout(Apply(s, es[0]), es[1..])))
  }

  /** Exactly those runs keep the invariant at every step. */
  lemma {:induction false} LifecycleKeptIff(s: Server, es: seq<Event>)
    requires Sound(s) && Legal(s, es)
    ensures SoundThroughout(s, es) <==> FreshNames(s, es)
    decreases |es|
  {
    hide Sound, Possible, Asserted, Apply, FreshName;
    if es != [] {
      StepKeepsIff(s, es[0]);
      if FreshName(s, es[0]) {
        LifecycleKeptIff(Apply(s, es[0]), es[1..]);
      } else if Asserted(s, es[0]) {
        assert !SoundThroughout(Apply(s, es[0]), es[1..]);
      }
    }
  }

  lemma StepKeepsIff(s: Server, e: Event)
    requires Sound(s) && Possible(s, e)
    ensures Asserted(s, e) && Sound(Apply(s, e)) <==> FreshName(s, e)
  {
    hide Sound, FreshName, Accepted;
    if e.Accepts? {
      AcceptKeepsIff(s, e.ioLoop);
    } else {
      OnlyAcceptsNeedNames(s, e);
      SoundKept(s, e);
    }
  }

  lemma StartedIsSound(base: Loop, name: string, ip: string)
    ensures Sound(Started(base, name, ip)) && Numbered(Started(base, name, ip))
  {
  }

  /** How many connections the run accepts. */
  function AcceptCount(es: seq<Event>): nat {
    if es == [] then 0 else (if es[0].Accepts? then 1 else 0) + AcceptCount(es[1..])
  }

  lemma {:induction false} NamesStayFresh(s: Server, es: seq<Event>)
    requires Sound(s) && Numbered(s) && Legal(s, es)
    requires |s.ip| <= N.LONGEST_ADDRESS && |s.conns| + AcceptCount(es) <= N.IDS
    ensures FreshNames(s, es)
    decreases |es|
  {
    hide Sound, Possible, Asserted, Apply, Numbered, FreshName;
    if es != [] {
      FewerThanAllIds(s, es[0]);
      SoundKept(s, es[0]);
      NumberedKept(s, es[0]);
      NamesStayFresh(Apply(s, es[0]), es[1..]);
    }
  }

  lemma FewerThanAllIds(s: Server, e: Event)
    requires Sound(s) && Numbered(s) && |s.ip| <= N.LONGEST_ADDRESS
    requires e.Accepts? ==> |s.conns| < N.IDS
    ensures FreshName(s, e)
  {
    hide N.Name, IdOf, Sound, Numbered, FreshName;
    if e.Accepts? {
      FreshNameIff(s, e.ioLoop);
      forall c | 0 <= c < |s.conns| && Filed(s.conns[c]) ensures (|s.conns| - c) % N.IDS != 0 {
        SmallRemainder(|s.conns| - c);
      }
    } else {
      OnlyAcceptsNeedNames(s, e);
    }
  }

  lemma SmallRemainder(n: nat)
    requires 0 < n < N.IDS
    ensures n % N.IDS != 0
  {
  }

  lemma OnlyAcceptsNeedNames(s: Server, e: Event)
    requires !e.Accepts?
    ensures FreshName(s, e)
  {
  }

  /**
   The connection lifecycle. From start() on, over every interleaving of the base loop
   and the I/O loops, with at most 2^32 connections accepted and an address of at most
   fifty characters: every assertion holds, among them that erase finds its entry and that
   each task runs on its own loop; the connection callback has fired at most once up and
   at most once down, never down before up; the close callback at most once; and
   connections_ files exactly the connections that are not yet removed.
   */
  lemma Lifecycle(base: Loop, name: string, ip: string, es: seq<Event>)
    requires Legal(Started(base, name, ip), es)
    requires |ip| <= N.LONGEST_ADDRESS && AcceptCount(es) <= N.IDS
    ensures Safe(Started(base, name, ip), es)
    ensures var s := Run(Started(base, name, ip), es);
      && (forall c :: 0 <= c < |s.conns| ==> CallbacksInOrder(s.conns[c]))
      && FiledByName(s)
  {
    hide Possible, Asserted, Apply, FreshName, TasksExpected;
    var start := Started(base, name, ip);
    StartedIsSound(base, name, ip);
    NamesStayFresh(start, es);
    LifecycleKept(start, es);
    var s := Run(start, es);
    forall c | 0 <= c < |s.conns| ensures CallbacksInOrder(s.conns[c]) {
      assert InPhase(s.conns[c]);
    }
  }

  predicate CallbacksInOrder(conn: Conn) {
    && conn.downs == conn.closes <= conn.ups <= 1
    && (conn.ups == 0 <==> conn.state == Connecting)
    && (conn.downs == 1 <==> conn.state == Disconnected || conn.overwritten)
    && (conn.reading ==> conn.ups == 1 && conn.downs == 0)
  }

  /**
   When no task is left on any loop, every connection is either still reading and filed,
   or was closed, removed and destroyed. A destroyed one is kDisconnected, as its
   destructor asserts, exactly if no shutdown() on another thread set state_ after the close.
   */
  lemma NothingPendingMeansSettled(s: Server, c: ConnId)
    requires Sound(s) && s.tasks == multiset{} && c < |s.conns|
    ensures s.conns[c].reading <==> s.conns[c].name in s.connections && s.connections[s.conns[c].name] == c
    ensures !s.conns[c].reading ==>
      s.conns[c].phase == Gone && (s.conns[c].state == Disconnected <==> !s.conns[c].overwritten)
  {
    var conn := s.conns[c];
    assert InPhase(conn);
    assert s.tasks[Posted(conn.loop, ConnectEstablished(c))] == 0;
    assert s.tasks[Posted(s.base, RemoveConnection(c))] == 0;
    assert s.tasks[Posted(conn.loop, ConnectDestroyed(c))] == 0;
  }

  /** No connection is, or is about to be, overwritten by a shutdown() on another thread. */
  predicate NoneOverwritten(s: Server) {
    forall c :: 0 <= c < |s.conns| ==> s.conns[c].stopping == 0 && !s.conns[c].overwritten
  }

  lemma NoneOverwrittenStep(s: Server, e: Event)
    requires NoneOverwritten(s) && Possible(s, e) && Asserted(s, e) && !e.TestsShutdown?
    ensures NoneOverwritten(Apply(s, e))
  {
    match e
    case Accepts(ioLoop) => AcceptedNotOverwritten(s, ioLoop);
    case Runs(loop, task) => TaskOverwritesNone(s, loop, task);
    case ReadFails(c) => ClosedNotOverwritten(s, c);
    case _ =>
  }

  lemma AcceptedNotOverwritten(s: Server, ioLoop: Loop)
    requires NoneOverwritten(s) && Possible(s, Accepts(ioLoop))
    ensures NoneOverwritten(Accepted(s, ioLoop))
  {
    hide N.Name;
  }

  lemma TaskOverwritesNone(s: Server, loop: Loop, task: Task)
    requires NoneOverwritten(s) && Possible(s, Runs(loop, task)) && Asserted(s, Runs(loop, task))
    ensures NoneOverwritten(Apply(s, Runs(loop, task)))
  {
    hide Asserted;
  }

  lemma ClosedNotOverwritten(s: Server, c: ConnId)
    requires NoneOverwritten(s) && c < |s.conns|
    ensures NoneOverwritten(Closed(s, c))
  {
  }

  /** So it never is if shutdown() is called on the connection's own loop. */
  lemma {:induction false} OnLoopNoneOverwritten(s: Server, es: seq<Event>)
    requires NoneOverwritten(s) && Legal(s, es) && Safe(s, es)
    requires forall i :: 0 <= i < |es| ==> !es[i].TestsShutdown?
    ensures NoneOverwritten(Run(s, es))
    decreases |es|
  {
    hide Possible, Asserted, Apply, NoneOverwritten;
    if es != [] {
      NoneOverwrittenStep(s, es[0]);
      OnLoopNoneOverwritten(Apply(s, es[0]), es[1..]);
    }
  }

  // ----------------------------------------------------------------- the class

  /** The fields of TcpServer, its connections, and what has been posted to the loops. */
  class TcpServer {
    const base: Loop
    const name: string
    const ip: string
    var nextConnId: nat
    var connections: map<string, ConnId>
    var conns: seq<Conn>
    var tasks: multiset<Posted>

    ghost function View(): Server
      reads this
    {
      Server(base, name, ip, nextConnId, connections, conns, tasks)
    }

    constructor (base: Loop, name: string, ip: string)
      ensures View() == Started(base, name, ip)
    {
      this.base, this.name, this.ip := base, name, ip;
      nextConnId, connections, conns, tasks := 1, map[], [], multiset{};
    }

    method PostTo(loop: Loop, task: Task)
      modifies this`tasks
      ensures View() == Post(old(View()), loop, task)
    {
      tasks := tasks + multiset{Posted(loop, task)};
    }

    /** connectEstablished of connection c, on its loop. */
    method RunConnectEstablished(c: ConnId)
      requires c < |conns| && conns[c].state == Connecting
      modifies this`conns
      ensures View() == Established(old(View()), c)
    {
      var conn := conns[c];
      conns := conns[c := conn.(state := Connected, ups := conn.ups + 1, reading := true, phase := Live)];
    }

    /** connectDestroyed of connection c, on its loop. */
    method RunConnectDestroyed(c: ConnId)
      requires c < |conns|
      modifies this`conns
      ensures View() == Destroyed(old(View()), c)
    {
      var conn := conns[c];
      if conn.state == Connected {
        conn := conn.(state := Disconnected, downs := conn.downs + 1);
      }
      conns := conns[c := conn.(phase := Gone)];
    }

    method NewConnection(ioLoop: Loop)
      requires nextConnId < N.IDS
      modifies this
      ensures View() == Accepted(old(View()), ioLoop)
    {
      var conName := N.Name(name, ip, nextConnId);
      nextConnId := (nextConnId + 1) % N.IDS;
      var c := |conns|;
      conns := conns + [Conn(conName, ioLoop, Connecting, false, 0, 0, 0, Opening, 0, false)];
      connections := connections[conName := c];
      if ioLoop == base {
        RunConnectEstablished(c);
      } else {
        PostTo(ioLoop, ConnectEstablished(c));
      }
    }

    /** closeCallback_ of connection c, called on the loop current. */
    method RemoveConnection(c: ConnId, current: Loop)
      requires c < |conns| && (current == base ==> conns[c].name in connections)
      modifies this
      ensures View() ==
        if current == base then Erased(old(View()), c) else Post(old(View()), base, Task.RemoveConnection(c))
    {
      if current == base {
        var n := RemoveConnectionInThisThread(c);
        assert n == 1;
      } else {
        PostTo(base, Task.RemoveConnection(c));
      }
    }

    /** n is the number of entries erased, which the code asserts to be 1. */
    method RemoveConnectionInThisThread(c: ConnId) returns (n: nat)
      requires c < |conns|
      modifies this
      ensures n == if old(conns[c].name) in old(connections) then 1 else 0
      ensures View() == Erased(old(View()), c)
    {
      n := if conns[c].name in connections then 1 else 0;
      connections := connections - {conns[c].name};
      conns := conns[c := conns[c].(phase := Removed)];
      PostTo(conns[c].loop, ConnectDestroyed(c));
    }

    /** handleClose of connection c, on its loop. */
    method HandleClose(c: ConnId)
      requires c < |conns| && (conns[c].state == Connected || conns[c].state == Disconnecting)
      requires conns[c].loop == base ==> conns[c].name in connections
      modifies this
      ensures View() == Closed(old(View()), c)
    {
      var conn := conns[c];
      conns := conns[c := conn.(state := Disconnected, reading := false, downs := conn.downs + 1,
                                closes := conn.closes + 1, phase := Closing)];
      RemoveConnection(c, conn.loop);
    }
  }
}
