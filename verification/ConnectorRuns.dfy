/** What calls of connect and stop, and the ends of attempts, lead to. */
module ConnectorRuns {
  import opened Basics
  import opened Connectors

  /** The state after some events, each of them possible at its point. */
  ghost predicate After(s: Client, es: seq<Event>, t: Client) {
    Legal(s, es) && Run(s, es) == t
  }

  lemma AfterNothing(s: Client)
    ensures After(s, [], s)
  {
  }

  lemma AfterOne(s: Client, e: Event, es: seq<Event>, t: Client)
    requires Possible(s, e) && After(Apply(s, e), es, t)
    ensures After(s, [e] + es, t)
  {
    hide Possible, Apply;
    assert ([e] + es)[1..] == es;
  }

  // ------------------------------------------------------------------ retrying

  /**
   A failed attempt of a wanted connector: one attempt fewer, and one timer, armed for
   min(1000 * 2^n, 30000) milliseconds when it is the n-th since construction or restart.
   */
  lemma RetryArmsTimer(s: Client, outcome: Outcome)
    requires Sound(s) && Possible(s, Attempts(outcome)) && s.k.connect
    requires outcome == Retryable || outcome == SocketError
    ensures var t := Apply(Apply(s, Attempts(outcome)), Acts);
      && t.k.inFlight == s.k.inFlight - 1 && t.k.due == Nothing && t.k.state == Disconnected
      && t.k.timers == s.k.timers + [Min(1000 * Pow2(|s.k.delays|), 30000)]
      && t.k.delays == s.k.delays + [Min(1000 * Pow2(|s.k.delays|), 30000)]
      && t.callbacks == s.callbacks && t.connected == s.connected
  {
  }

  /** When that timer fires, the connector tries once more. */
  lemma TimerTriesAgain(s: Client, i: nat)
    requires Possible(s, TimerFires(i)) && s.k.connect
    ensures var t := Apply(Apply(s, TimerFires(i)), Acts);
      && t.k.inFlight == s.k.inFlight + 1 && t.k.due == Nothing
      && t.k.timers == s.k.timers[..i] + s.k.timers[i + 1..] && t.k.delays == s.k.delays
  {
  }

  function Retries(n: nat): seq<Event> {
    if n == 0 then [] else Retries(n - 1) + [Attempts(Retryable), Acts, TimerFires(0), Acts]
  }

  /** After n retries a wanted connector has one attempt in flight, having waited n times. */
  lemma {:induction false} RetriesGoOn(s: Client, n: nat)
    requires Sound(s) && s.k.connect && s.k.inFlight == 1
    ensures Legal(s, Retries(n))
    ensures var t := Run(s, Retries(n));
      && Sound(t) && t.k.connect && t.k.inFlight == 1
      && |t.k.delays| == |s.k.delays| + n && t.callbacks == s.callbacks
  {
    AfterNothing(s);
    if n > 0 {
      RetriesGoOn(s, n - 1);
      var t := Run(s, Retries(n - 1));
      var round := [Attempts(Retryable), Acts, TimerFires(0), Acts];
      var u := OneRetry(t);
      LegalThen(s, Retries(n - 1), round);
    }
  }

  lemma {:induction false} LegalThen(s: Client, es: seq<Event>, fs: seq<Event>)
    requires Legal(s, es) && Legal(Run(s, es), fs)
    ensures Legal(s, es + fs) && Run(s, es + fs) == Run(Run(s, es), fs)
    decreases |es|
  {
    hide Possible, Apply;
    if es == [] {
      assert es + fs == fs;
    } else {
      assert (es + fs)[1..] == es[1..] + fs;
      LegalThen(Apply(s, es[0]), es[1..], fs);
    }
  }

  /** The state in the middle of a round, with the timer armed, and at its end. */
  lemma RetryRound(s: Client) returns (armed: Client, t: Client)
    requires Sound(s) && s.k.connect && s.k.inFlight == 1
    ensures After(s, [Attempts(Retryable), Acts], armed) && After(armed, [TimerFires(0), Acts], t)
    ensures |t.k.delays| == |s.k.delays| + 1 && t.callbacks == s.callbacks
    ensures t.k.connect && t.k.inFlight == 1
  {
    NotBusy(s);
    RetryArmsTimer(s, Retryable);
    var tried := Apply(s, Attempts(Retryable));
    armed := Apply(tried, Acts);
    TimerTriesAgain(armed, 0);
    var fired := Apply(armed, TimerFires(0));
    t := Apply(fired, Acts);
    AfterTwo(s, Attempts(Retryable), Acts);
    AfterTwo(armed, TimerFires(0), Acts);
  }

  lemma AfterTwo(s: Client, e: Event, f: Event)
    requires Possible(s, e) && Possible(Apply(s, e), f)
    ensures After(s, [e, f], Apply(Apply(s, e), f))
  {
    hide Possible, Apply;
    AfterNothing(Apply(Apply(s, e), f));
    AfterOne(Apply(s, e), f, [], Apply(Apply(s, e), f));
    AfterOne(s, e, [f] + [], Apply(Apply(s, e), f));
    assert [e] + ([f] + []) == [e, f];
  }

  lemma {:induction false} SoundAfter(s: Client, es: seq<Event>, t: Client)
    requires Sound(s) && After(s, es, t) && forall e :: e in es ==> !e.StartsConnector?
    ensures Sound(t)
    decreases |es|
  {
    hide Possible, Apply, Sound;
    if es != [] {
      assert es[0] in es;
      SoundKept(s, es[0]);
      SoundAfter(Apply(s, es[0]), es[1..], t);
    }
  }

  lemma OneRetry(s: Client) returns (t: Client)
    requires Sound(s) && s.k.connect && s.k.inFlight == 1
    ensures After(s, [Attempts(Retryable), Acts, TimerFires(0), Acts], t)
    ensures Sound(t) && t.k.connect && t.k.inFlight == 1
    ensures |t.k.delays| == |s.k.delays| + 1 && t.callbacks == s.callbacks
  {
    var armed;
    armed, t := RetryRound(s);
    hide Sound, Possible, Apply;
    LegalThen(s, [Attempts(Retryable), Acts], [TimerFires(0), Acts]);
    var es := [Attempts(Retryable), Acts, TimerFires(0), Acts];
    assert [Attempts(Retryable), Acts] + [TimerFires(0), Acts] == es;
    SoundAfter(s, es, t);
  }

  lemma NotBusy(s: Client)
    requires Sound(s) && s.k.inFlight == 1
    ensures !Busy(s) && s.k.timers == []
  {
  }

  // ---------------------------------------------------------------- connecting

  /** What follows a call of connect: on the loop at once, from elsewhere when the loop runs it. */
  function Connecting(onLoop: bool): seq<Event> {
    if onLoop then [ConnectsClient, StartsConnector(true), Acts, Acts]
    else [ConnectsClient, StartsConnector(false), RunsStart, Acts]
  }

  /** connect() on an idle client leads to exactly one async_connect, wanted by both. */
  lemma ConnectBegins(s: Client, onLoop: bool)
    requires Sound(s) && Idle(s)
    ensures Legal(s, Connecting(onLoop))
    ensures var t := Run(s, Connecting(onLoop));
      && t.connect && t.k.connect && t.k.inFlight == 1 && Alive(t) == 1
      && t.k.delays == s.k.delays && t.callbacks == s.callbacks
  {
    hide Sound;
    var es := Connecting(onLoop);
    var wanted := Apply(s, ConnectsClient);
    var started := Apply(wanted, es[1]);
    var tested := Apply(started, es[2]);
    var t := Apply(tested, Acts);
    AfterNothing(t);
    hide After;
    AfterOne(tested, Acts, [], t);
    AfterOne(started, es[2], [Acts] + [], t);
    AfterOne(wanted, es[1], [es[2]] + ([Acts] + []), t);
    AfterOne(s, ConnectsClient, [es[1]] + ([es[2]] + ([Acts] + [])), t);
    assert [ConnectsClient] + ([es[1]] + ([es[2]] + ([Acts] + []))) == es;
    AfterMeans(s, es, t);
  }

  lemma AfterMeans(s: Client, es: seq<Event>, t: Client)
    requires After(s, es, t)
    ensures Legal(s, es) && Run(s, es) == t
  {
  }

  /** A successful attempt of a wanted connector becomes the connection. */
  lemma SuccessDelivers(s: Client)
    requires Sound(s) && Possible(s, Attempts(Succeeds)) && s.k.connect
    ensures var t := Apply(Apply(s, Attempts(Succeeds)), Acts);
      && t.connected && t.callbacks == s.callbacks + 1 && t.k.state == Connected
      && t.k.inFlight == s.k.inFlight - 1 && t.k.timers == s.k.timers
  {
  }

  /** A lost connection is replaced exactly if retry was enabled and the client still wants one. */
  lemma LossLeadsOnIff(s: Client)
    requires Sound(s) && s.connected
    ensures Possible(s, Loses) && Apply(s, Loses).destroys == s.destroys + 1 && !Apply(s, Loses).connected
    ensures Alive(Apply(s, Loses)) == 1 <==> s.retry && s.connect
    ensures Alive(Apply(s, Loses)) == 0 <==> !(s.retry && s.connect)
  {
  }

  lemma EnableRetryEnables(s: Client)
    ensures Apply(s, EnablesRetry) == s.(retry := true)
  {
  }

  /** The restart after a loss begins an attempt, and its first retry waits 1000 ms again. */
  lemma ReconnectsAfresh(s: Client)
    requires Sound(s) && s.connected && s.connect
    ensures Legal(s, [EnablesRetry, Loses, Restarts, Acts, Acts])
    ensures var t := Run(s, [EnablesRetry, Loses, Restarts, Acts, Acts]);
      && Sound(t) && t.k.inFlight == 1 && !t.connected && t.k.connect
      && t.k.delays == [] && t.k.retryDelayMs == 1000
  {
    var es := [EnablesRetry, Loses, Restarts, Acts, Acts];
    var enabled := Apply(s, EnablesRetry);
    LossLeadsOnIff(s);
    var lost := Apply(enabled, Loses);
    var begun := Apply(lost, Restarts);
    var tested := Apply(begun, Acts);
    var t := Apply(tested, Acts);
    assert t.k.inFlight == 1 && t.k.delays == [] && t.k.retryDelayMs == 1000;
    hide Sound, Possible, Apply;
    AfterTwo(begun, Acts, Acts);
    AfterOne(lost, Restarts, [Acts, Acts], t);
    AfterOne(enabled, Loses, [Restarts] + [Acts, Acts], t);
    AfterOne(s, EnablesRetry, [Loses] + ([Restarts] + [Acts, Acts]), t);
    assert [EnablesRetry] + ([Loses] + ([Restarts] + [Acts, Acts])) == es;
    SoundAfter(s, es, t);
    AfterMeans(s, es, t);
  }

  // ------------------------------------------------------------------ stopping

  /** The client after both halves of stop(). */
  function StopCalled(s: Client, onLoop: bool): Client
    requires Possible(s, StopsConnector(onLoop))
  {
    Apply(Apply(s, StopsClient), StopsConnector(onLoop))
  }

  /** stop() clears both wishes, and commits no handler that was not committed before. */
  lemma StopStops(s: Client, onLoop: bool)
    requires Possible(s, StopsConnector(onLoop))
    ensures Stopped(StopCalled(s, onLoop))
    ensures Committed(StopCalled(s, onLoop)) <==> Committed(s)
    ensures Quieter(s, StopCalled(s, onLoop))
  {
  }

  /**
   After stop(), until connect() is called again, no attempt, timer or connection callback
   begins, unless a handler was between a test that found connecting wanted and what
   follows it; and then something may begin.
   */
  lemma StopIsQuietIff(s: Client, onLoop: bool)
    requires Possible(s, StopsConnector(onLoop))
    ensures NeverBeginsAgain(StopCalled(s, onLoop)) <==> !Committed(s)
  {
    StopStops(s, onLoop);
    hide Stopped, Committed;
    StopIsFinalIff(StopCalled(s, onLoop));
  }

  /** A refused attempt after stop() arms nothing. */
  lemma StoppedAttemptEnds(s: Client, onLoop: bool, outcome: Outcome)
    requires Sound(s) && s.k.inFlight == 1 && Possible(s, StopsConnector(onLoop))
    ensures Possible(StopCalled(s, onLoop), Attempts(outcome))
    ensures Alive(Apply(StopCalled(s, onLoop), Attempts(outcome))) == 0
  {
  }

  /**
   When the socket's error cannot even be read, the connector stays kConnecting with
   nothing alive, so that no connect() is safe; a stop() on the loop, or one from elsewhere
   once the loop has run it, brings it back to idle.
   */
  lemma UnreadableErrorSticks(s: Client, onLoop: bool)
    requires Sound(s) && Possible(s, Attempts(OptionFails))
    ensures var t := Apply(s, Attempts(OptionFails));
      && Alive(t) == 0 && !Idle(t)
      && Possible(t, StopsConnector(onLoop))
      && var u := StopCalled(t, onLoop);
      && (onLoop ==> Idle(u))
      && (!onLoop ==> !Idle(u) && Possible(u, RunsStop) && Idle(Apply(u, RunsStop)))
  {
  }

  /** A fatal error ends the attempt and leaves the client idle. */
  lemma FatalErrorEnds(s: Client)
    requires Sound(s) && Possible(s, Attempts(Fatal))
    ensures Idle(Apply(s, Attempts(Fatal)))
  {
  }
}
