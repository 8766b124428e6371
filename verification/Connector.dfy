/**
 Connector and the TcpClient that restarts it: connecting, retrying with back-off, and
 stopping. Handlers run on the client's loop; start, stop and connect may be called
 from any thread.
 */
module Connectors {
  import opened Basics

  const INIT_RETRY_DELAY_MS: nat := 1000
  const MAX_RETRY_DELAY_MS: nat := 30 * 1000

  datatype State = Disconnected | Connecting | Connected

  /**
   A handler between a test of connect_ and what it does next; StartDue stands before the
   test, after connect_ has been set. Meanwhile another thread may clear connect_.
   */
  datatype Due = Nothing | StartDue | ConnectDue | RetryDue | DeliverDue

  /**
   The fields of Connector, and what it is waiting for: startInThisThread and
   stopInThisThread queued on the loop, async_connect operations, retry timers. delays
   is history: every delay asked for since construction or the last restart.
   */
  datatype ConnectorView = ConnectorView(
    connect: bool,
    state: State,
    retryDelayMs: nat,
    starts: nat,
    stops: nat,
    inFlight: nat,
    timers: seq<nat>,
    due: Due,
    delays: seq<nat>)

  const NEW: ConnectorView := ConnectorView(false, Disconnected, INIT_RETRY_DELAY_MS, 0, 0, 0, [], Nothing, [])

  // --------------------------------------------------------- Connector's steps

  /** retry, up to its test. */
  function Retried(k: ConnectorView): ConnectorView {
    k.(state := Disconnected, due := if k.connect then RetryDue else Nothing)
  }

  /** startInThisThread, up to its test. */
  function StartedInThisThread(k: ConnectorView): ConnectorView {
    k.(due := if k.connect then ConnectDue else Nothing)
  }

  function StoppedInThisThread(k: ConnectorView): ConnectorView {
    if k.state == Connecting then Retried(k.(state := Disconnected)) else k
  }

  function Asked(k: ConnectorView, onLoop: bool): ConnectorView {
    var on := k.(connect := true);
    if onLoop then on.(due := StartDue) else on.(starts := on.starts + 1)
  }

  function AskedToStop(k: ConnectorView, onLoop: bool): ConnectorView {
    var off := k.(connect := false);
    if onLoop then StoppedInThisThread(off) else off.(stops := off.stops + 1)
  }

  /** restart, up to its call of startInThisThread. */
  function Restarted(k: ConnectorView): ConnectorView {
    k.(state := Disconnected, retryDelayMs := INIT_RETRY_DELAY_MS, connect := true, delays := [], due := StartDue)
  }

  /** What the handler of async_connect is told, and then getsockopt(SO_ERROR). */
  datatype Outcome = Succeeds | SocketError | OptionFails | Retryable | Fatal

  /** The handler of async_connect, up to its test. */
  function Attempted(k: ConnectorView, outcome: Outcome): ConnectorView
    requires k.inFlight > 0
  {
    var done := k.(inFlight := k.inFlight - 1);
    match outcome
    case Succeeds => done.(state := Connected, due := if k.connect then DeliverDue else Nothing)
    case SocketError => Retried(done.(state := Connecting))
    case OptionFails => done.(state := Connecting)
    case Retryable => Retried(done)
    case Fatal => done
  }

  /** The handler goes on to what is due, whatever connect_ is by now. */
  function ActedOn(k: ConnectorView): ConnectorView {
    match k.due
    case Nothing => k
    case StartDue => StartedInThisThread(k)
    case ConnectDue => k.(due := Nothing, inFlight := k.inFlight + 1)
    case RetryDue =>
      k.(due := Nothing, timers := k.timers + [k.retryDelayMs], delays := k.delays + [k.retryDelayMs],
         retryDelayMs := Min(k.retryDelayMs * 2, MAX_RETRY_DELAY_MS))
    case DeliverDue => k.(due := Nothing)
  }

  /** newConnectionCallback_ is called only if nobody has stopped the connector meanwhile. */
  predicate Delivers(k: ConnectorView, outcome: Outcome) {
    outcome == Succeeds && k.connect
  }

  // ---------------------------------------------------------- TcpClient's steps

  /**
   connect, retry and connection_ of TcpClient; restarting is the moment in
   removeConnection between its test of retry_ && connect_ and the restart. callbacks
   and destroys are history: calls of newConnection, each of which ends in
   connectEstablished, and connectDestroyed posted to the loop.
   */
  datatype Client = Client(
    k: ConnectorView, connect: bool, retry: bool, connected: bool, restarting: bool, callbacks: nat, destroys: nat)

  const INITIAL: Client := Client(NEW, false, false, false, false, 0, 0)

  datatype Event =
    | ConnectsClient                 // the first half of TcpClient::connect
    | StartsConnector(onLoop: bool)  // its second half
    | EnablesRetry
    | StopsClient                    // the first half of TcpClient::stop, and disconnect()
    | StopsConnector(onLoop: bool)   // its second half
    | RunsStart
    | RunsStop
    | TimerFires(i: nat)
    | Attempts(outcome: Outcome)
    | Loses
    | Restarts
    | Acts                           // the handler on the loop goes on after its test

  /** While a handler is between a test and what follows it, the loop does nothing else. */
  predicate Busy(s: Client) {
    s.restarting || s.k.due != Nothing
  }

  predicate Possible(s: Client, e: Event) {
    match e
    case ConnectsClient => true
    case StartsConnector(onLoop) => onLoop ==> !Busy(s)
    case EnablesRetry => true
    case StopsClient => true
    case StopsConnector(onLoop) => onLoop ==> !Busy(s)
    case RunsStart => s.k.starts > 0 && !Busy(s)
    case RunsStop => s.k.stops > 0 && !Busy(s)
    case TimerFires(i) => i < |s.k.timers| && !Busy(s)
    case Attempts(_) => s.k.inFlight > 0 && !Busy(s)
    case Loses => s.connected && !Busy(s)
    case Restarts => s.restarting
    case Acts => s.k.due != Nothing
  }

  /** startInThisThread asserts that the connector is disconnected. */
  predicate Asserted(s: Client, e: Event) {
    (e.RunsStart? || e.TimerFires? || (e.Acts? && s.k.due == StartDue)) ==> s.k.state == Disconnected
  }

  function Apply(s: Client, e: Event): Client
    requires Possible(s, e)
  {
    match e
    case ConnectsClient => s.(connect := true)
    case StartsConnector(onLoop) => s.(k := Asked(s.k, onLoop))
    case EnablesRetry => s.(retry := true)
    case StopsClient => s.(connect := false)
    case StopsConnector(onLoop) => s.(k := AskedToStop(s.k, onLoop))
    case RunsStart => s.(k := StartedInThisThread(s.k.(starts := s.k.starts - 1)))
    case RunsStop => s.(k := StoppedInThisThread(s.k.(stops := s.k.stops - 1)))
    case TimerFires(i) => s.(k := StartedInThisThread(s.k.(timers := s.k.timers[..i] + s.k.timers[i + 1..])))
    case Attempts(outcome) => s.(k := Attempted(s.k, outcome))
    case Loses => s.(connected := false, destroys := s.destroys + 1, restarting := s.retry && s.connect)
    case Restarts => s.(restarting := false, k := Restarted(s.k))
    case Acts =>
      var acted := s.(k := ActedOn(s.k));
      if s.k.due == DeliverDue then acted.(connected := true, callbacks := s.callbacks + 1) else acted
  }

  /** The handler goes on if it has anything left to do. */
  function Acted(s: Client): Client {
    if s.k.due == Nothing then s else Apply(s, Acts)
  }

  // ----------------------------------------------------------------- invariant

  /** Queued starts, attempts in flight, pending timers, what is due, and the connection they led to. */
  function Alive(s: Client): nat {
    s.k.starts + s.k.inFlight + |s.k.timers| + Bit(s.connected) + Bit(s.restarting) + Bit(s.k.due != Nothing)
  }

  function Pow2(n: nat): nat {
    if n == 0 then 1 else 2 * Pow2(n - 1)
  }

  /** The delay of the n-th retry, counted from 0. */
  function Delay(n: nat): nat {
    Min(INIT_RETRY_DELAY_MS * Pow2(n), MAX_RETRY_DELAY_MS)
  }

  predicate BacksOff(k: ConnectorView) {
    && k.retryDelayMs == Delay(|k.delays|)
    && forall n :: 0 <= n < |k.delays| ==> k.delays[n] == Delay(n)
  }

  predicate Sound(s: Client) {
    AtMostOne(s) && BacksOff(s.k) && TimersAsked(s.k)
  }

  /** A pending timer waits for the delay that was asked for last. */
  predicate TimersAsked(k: ConnectorView) {
    k.timers != [] ==> k.delays != [] && k.timers == [k.delays[|k.delays| - 1]]
  }

  /**
   One attempt at most; the connector's state tells whether it is still trying. Every
   connection is destroyed once, after it was lost.
   */
  predicate AtMostOne(s: Client) {
    && Alive(s) <= 1
    && (s.k.starts + s.k.inFlight + |s.k.timers| > 0 ==> s.k.state == Disconnected)
    && (s.k.due == StartDue || s.k.due == ConnectDue || s.k.due == RetryDue ==> s.k.state == Disconnected)
    && (s.connected || s.restarting || s.k.due == DeliverDue ==> s.k.state == Connected)
    && s.callbacks == s.destroys + Bit(s.connected)
  }

  lemma RetryBacksOff(k: ConnectorView)
    requires BacksOff(k)
    ensures BacksOff(ActedOn(k))
  {
    assert Delay(|k.delays| + 1) == Min(2 * Delay(|k.delays|), MAX_RETRY_DELAY_MS);
  }

  /** connect() is called when nothing is alive and the last connection was not simply lost. */
  predicate Idle(s: Client) {
    Alive(s) == 0 && s.k.state == Disconnected
  }

  lemma SoundKept(s: Client, e: Event)
    requires Sound(s) && Possible(s, e) && (e.StartsConnector? ==> Idle(s))
    ensures Asserted(s, e) && Sound(Apply(s, e))
  {
    TimersKept(s, e);
    hide AtMostOne, BacksOff, TimersAsked;
    AtMostOneKept(s, e);
    BackOffKept(s, e);
  }

  lemma AtMostOneKept(s: Client, e: Event)
    requires AtMostOne(s) && Possible(s, e) && (e.StartsConnector? ==> Idle(s))
    ensures Asserted(s, e) && AtMostOne(Apply(s, e))
  {
    hide Min;
  }

  lemma TimersKept(s: Client, e: Event)
    requires AtMostOne(s) && TimersAsked(s.k) && Possible(s, e)
    ensures TimersAsked(Apply(s, e).k)
  {
    hide Min, BacksOff;
    match e
    case TimerFires(i) => assert |s.k.timers| == 1;
    case Acts => assert s.k.due == RetryDue ==> s.k.timers == [];
    case Restarts => assert s.k.timers == [];
    case _ => TimersStay(s, e);
  }

  lemma TimersStay(s: Client, e: Event)
    requires Possible(s, e) && !e.TimerFires? && !e.Acts? && !e.Restarts?
    ensures Apply(s, e).k.timers == s.k.timers && Apply(s, e).k.delays == s.k.delays
  {
  }

  lemma BackOffKept(s: Client, e: Event)
    requires BacksOff(s.k) && Possible(s, e)
    ensures BacksOff(Apply(s, e).k)
  {
    hide Delay, Min;
    FirstDelay();
    RetryBacksOff(s.k);
  }

  /** Any other call of connect() begins a second attempt or trips the assertion. */
  lemma ConnectKeepsIff(s: Client, onLoop: bool)
    requires Sound(s) && Possible(s, StartsConnector(onLoop))
    ensures Asserted(s, StartsConnector(onLoop)) && Sound(Apply(s, StartsConnector(onLoop))) <==> Idle(s)
  {
    if Idle(s) {
      SoundKept(s, StartsConnector(onLoop));
    }
  }

  lemma FirstDelay()
    ensures Delay(0) == INIT_RETRY_DELAY_MS
  {
  }

  /**
   A finished attempt leads on, to a connection or a retry, exactly if the client still
   wants to connect and the outcome is not one the connector gives up on.
   */
  lemma AttemptLeadsOnIff(s: Client, outcome: Outcome)
    requires Sound(s) && Possible(s, Attempts(outcome))
    ensures Alive(Apply(s, Attempts(outcome))) == 1 <==>
      s.k.connect && (outcome == Succeeds || outcome == SocketError || outcome == Retryable)
    ensures Acted(Apply(s, Attempts(outcome))).connected <==> s.k.connect && outcome == Succeeds
  {
    hide Delay;
  }

  // ---------------------------------------------------------------------- runs

  ghost predicate Legal(s: Client, es: seq<Event>)
    decreases |es|
  {
    es == [] || (Possible(s, es[0]) && Legal(Apply(s, es[0]), es[1..]))
  }

  ghost function Run(s: Client, es: seq<Event>): Client
    requires Legal(s, es)
    decreases |es|
  {
    if es == [] then s else Run(Apply(s, es[0]), es[1..])
  }

  /** The assertions along a run. */
  ghost predicate Safe(s: Client, es: seq<Event>)
    requires Legal(s, es)
    decreases |es|
  {
    es == [] || (Asserted(s, es[0]) && Safe(Apply(s, es[0]), es[1..]))
  }

  ghost predicate ConnectsWhenIdle(s: Client, es: seq<Event>)
    requires Legal(s, es)
    decreases |es|
  {
    es == [] || ((es[0].StartsConnector? ==> Idle(s)) && ConnectsWhenIdle(Apply(s, es[0]), es[1..]))
  }

  /**
   Over every run that calls connect() only when the client is idle, as it is at first,
   and in which only removeConnection restarts: at most one attempt is alive, counting
   queued starts, connects in flight, retry timers and the delivered connection; the
   assertion in startInThisThread holds; and the n-th retry since construction or restart
   waits min(1000 * 2^n, 30000) milliseconds, for which its timer is armed. Every connection established is destroyed
   once it is lost, and only then.
   */
  lemma {:induction false} OneAttempt(s: Client, es: seq<Event>)
    requires Sound(s) && Legal(s, es) && ConnectsWhenIdle(s, es)
    ensures Safe(s, es)
    ensures Alive(Run(s, es)) <= 1 && BacksOff(Run(s, es).k) && TimersAsked(Run(s, es).k)
    ensures Run(s, es).callbacks == Run(s, es).destroys + Bit(Run(s, es).connected)
    ensures Sound(Run(s, es))
    decreases |es|
  {
    hide Possible, Asserted, Apply;
    if es != [] {
      SoundKept(s, es[0]);
      OneAttempt(Apply(s, es[0]), es[1..]);
    }
  }

  lemma InitiallySound()
    ensures Sound(INITIAL) && Idle(INITIAL)
  {
    NewBacksOff();
    hide BacksOff;
    assert INITIAL.k == NEW;
  }

  lemma NewBacksOff()
    ensures BacksOff(NEW)
  {
    hide Delay, Min;
    FirstDelay();
  }

  // ------------------------------------------------------------------ stopping

  /** Nothing new has been begun between s and t. */
  predicate Quieter(s: Client, t: Client) {
    && t.k.inFlight <= s.k.inFlight
    && |t.k.timers| <= |s.k.timers|
    && t.k.starts <= s.k.starts
    && t.k.delays == s.k.delays
    && t.callbacks == s.callbacks
  }

  predicate Stopped(s: Client) {
    !s.connect && !s.k.connect
  }

  /** Either half of TcpClient::connect. */
  predicate IsConnect(e: Event) {
    e.ConnectsClient? || e.StartsConnector?
  }

  /** A handler is between a test that found connecting wanted and what follows it. */
  predicate Committed(s: Client) {
    s.restarting || s.k.due == ConnectDue || s.k.due == RetryDue || s.k.due == DeliverDue
  }

  lemma StoppedStep(s: Client, e: Event)
    requires Stopped(s) && !Committed(s) && Possible(s, e) && !IsConnect(e)
    ensures Stopped(Apply(s, e)) && !Committed(Apply(s, e)) && Quieter(s, Apply(s, e))
  {
  }

  lemma {:induction false} StoppedStaysQuiet(s: Client, es: seq<Event>)
    requires Stopped(s) && !Committed(s) && Legal(s, es)
    requires forall i :: 0 <= i < |es| ==> !IsConnect(es[i])
    ensures Quieter(s, Run(s, es)) && Stopped(Run(s, es))
    decreases |es|
  {
    hide Possible, Apply, Committed;
    if es != [] {
      StoppedStep(s, es[0]);
      StoppedStaysQuiet(Apply(s, es[0]), es[1..]);
    }
  }

  ghost predicate NeverBeginsAgain(s: Client) {
    forall es: seq<Event> | Legal(s, es) && (forall i :: 0 <= i < |es| ==> !IsConnect(es[i])) :: Quieter(s, Run(s, es))
  }

  lemma RunOfActs(s: Client)
    requires s.k.due != Nothing
    ensures Legal(s, [Acts]) && Run(s, [Acts]) == Apply(s, Acts)
  {
    var es := [Acts];
    assert es[1..] == [];
    assert Legal(Apply(s, Acts), []);
  }

  /** A restart that has begun leads to an attempt, in spite of any stop() before it. */
  lemma RestartBegins(s: Client)
    requires s.restarting
    ensures var es := [Restarts, Acts, Acts];
      Legal(s, es) && Run(s, es).k.inFlight == s.k.inFlight + 1
  {
    var es := [Restarts, Acts, Acts];
    var begun := Apply(s, Restarts);
    var tested := Apply(begun, Acts);
    RunOfActs(tested);
    assert es[1..] == [Acts, Acts] && [Acts, Acts][1..] == [Acts];
    assert Legal(begun, [Acts, Acts]) && Run(begun, [Acts, Acts]) == Run(tested, [Acts]);
  }

  /**
   stop() is final (no attempt, timer or connection callback until connect() is called
   again) unless it falls between a test that found connecting wanted and what follows it:
   in removeConnection, startInThisThread, retry or connecting.
   */
  lemma StopIsFinalIff(s: Client)
    requires Stopped(s)
    ensures NeverBeginsAgain(s) <==> !Committed(s)
  {
    if s.restarting {
      RestartBegins(s);
      assert !Quieter(s, Run(s, [Restarts, Acts, Acts]));
    } else if Committed(s) {
      RunOfActs(s);
      assert !Quieter(s, Run(s, [Acts]));
    } else {
      forall es: seq<Event> | Legal(s, es) && (forall i :: 0 <= i < |es| ==> !IsConnect(es[i]))
        ensures Quieter(s, Run(s, es))
      {
        StoppedStaysQuiet(s, es);
      }
    }
  }

  // --------------------------------------------------------------- the classes

  /** The methods are those of a loop that no other thread disturbs: nothing is due between them. */
  class Connector {
    var connect: bool
    var state: State
    var retryDelayMs: nat
    var starts: nat         // startInThisThread queued on the loop
    var stops: nat          // stopInThisThread queued on the loop
    var inFlight: nat       // async_connect outstanding
    var timers: seq<nat>    // runAfter pending, with the delay asked for
    ghost var delays: seq<nat>

    ghost function View(): ConnectorView
      reads this
    {
      ConnectorView(connect, state, retryDelayMs, starts, stops, inFlight, timers, Nothing, delays)
    }

    constructor ()
      ensures View() == NEW
    {
      connect, state, retryDelayMs := false, Disconnected, INIT_RETRY_DELAY_MS;
      starts, stops, inFlight, timers, delays := 0, 0, 0, [], [];
    }

    method StartInThisThread()
      requires state == Disconnected
      modifies this
      ensures View() == ActedOn(StartedInThisThread(old(View())))
    {
      if connect {
        inFlight := inFlight + 1;
      }
    }

    method Start(onLoop: bool)
      requires onLoop ==> state == Disconnected
      modifies this
      ensures View() == ActedOn(ActedOn(Asked(old(View()), onLoop)))
    {
      connect := true;
      if onLoop {
        StartInThisThread();
      } else {
        starts := starts + 1;
      }
    }

    method Retry()
      modifies this
      ensures View() == ActedOn(Retried(old(View())))
    {
      state := Disconnected;
      if connect {
        timers := timers + [retryDelayMs];
        delays := delays + [retryDelayMs];
        retryDelayMs := Min(retryDelayMs * 2, MAX_RETRY_DELAY_MS);
      }
    }

    method StopInThisThread()
      modifies this
      ensures View() == ActedOn(StoppedInThisThread(old(View())))
    {
      if state == Connecting {
        state := Disconnected;
        Retry();
      }
    }

    method Stop(onLoop: bool)
      modifies this
      ensures View() == ActedOn(AskedToStop(old(View()), onLoop))
    {
      connect := false;
      if onLoop {
        StopInThisThread();
      } else {
        stops := stops + 1;
      }
    }

    method Restart()
      modifies this
      ensures View() == ActedOn(ActedOn(Restarted(old(View()))))
    {
      state := Disconnected;
      retryDelayMs := INIT_RETRY_DELAY_MS;
      delays := [];
      connect := true;
      StartInThisThread();
    }

    /** The handler of async_connect; delivered says that newConnectionCallback_ is called. */
    method OnAttempt(outcome: Outcome) returns (delivered: bool)
      requires inFlight > 0
      modifies this
      ensures View() == ActedOn(Attempted(old(View()), outcome))
      ensures delivered == Delivers(old(View()), outcome)
    {
      inFlight := inFlight - 1;
      delivered := false;
      match outcome
      case Succeeds =>
        state := Connecting;
        state := Connected;
        delivered := connect;
      case SocketError =>
        state := Connecting;
        Retry();
      case OptionFails =>
        state := Connecting;
      case Retryable =>
        Retry();
      case Fatal =>
    }
  }

  class TcpClient {
    const connector: Connector
    var connect: bool
    var retry: bool
    var connected: bool      // connection_ is set
    var restarting: bool
    ghost var callbacks: nat
    var destroys: nat        // connectDestroyed posted

    ghost function View(): Client
      reads this, connector
    {
      Client(connector.View(), connect, retry, connected, restarting, callbacks, destroys)
    }

    constructor ()
      ensures View() == INITIAL && fresh(connector)
    {
      connector := new Connector();
      connect, retry, connected, restarting, callbacks, destroys := false, false, false, false, 0, 0;
    }

    method Connect(onLoop: bool)
      requires onLoop ==> connector.state == Disconnected
      requires Possible(View(), StartsConnector(onLoop))
      modifies this, connector
      ensures View() == Acted(Acted(Apply(Apply(old(View()), ConnectsClient), StartsConnector(onLoop))))
    {
      connect := true;
      connector.Start(onLoop);
    }

    method Stop(onLoop: bool)
      requires Possible(View(), StopsConnector(onLoop))
      modifies this, connector
      ensures View() == Acted(Apply(Apply(old(View()), StopsClient), StopsConnector(onLoop)))
    {
      connect := false;
      connector.Stop(onLoop);
    }

    /** The connector's handler, with newConnection as its callback. */
    method OnAttempt(outcome: Outcome)
      requires Possible(View(), Attempts(outcome))
      modifies this, connector
      ensures View() == Acted(Apply(old(View()), Attempts(outcome)))
    {
      var delivered := connector.OnAttempt(outcome);
      if delivered {
        connected := true;
        callbacks := callbacks + 1;
      }
    }

    /** removeConnection up to its test: the connection is forgotten and its end posted. */
    method LoseConnection()
      requires connected && !restarting
      modifies this
      ensures View() == Apply(old(View()), Loses)
    {
      connected := false;
      destroys := destroys + 1;
      restarting := retry && connect;
    }

    /** The rest of removeConnection, after whatever other threads did since the test. */
    method RestartIfWanted()
      modifies this, connector
      ensures View() == if old(restarting) then Acted(Acted(Apply(old(View()), Restarts))) else old(View())
    {
      if restarting {
        restarting := false;
        connector.Restart();
      }
    }

    /** removeConnection when no other thread comes between its halves. */
    method RemoveConnection()
      requires connected && !restarting
      modifies this, connector
      ensures View() ==
        var lost := Apply(old(View()), Loses);
        if lost.restarting then Acted(Acted(Apply(lost, Restarts))) else lost
    {
      LoseConnection();
      RestartIfWanted();
    }
  }
}
