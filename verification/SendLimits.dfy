/**
 How far the promises of the sending side go: which calls of send() and shutdown() keep
 them in every future of the connection, and what happens after the others.
 */
module SendLimits {
  import opened Bytes
  import opened ConnectionStates
  import opened SendSide

  // ----------------------------------------------------------------- futures

  ghost predicate Reaches(c: Sender, es: seq<Event>, d: Sender) {
    Legal(c, es) && Safe(c, es) && HarmlessRun(c, es) && Run(c, es) == d
  }

  /** Some run without further empty appends to an empty buffer leads from c to d. */
  ghost predicate Leads(c: Sender, d: Sender) {
    exists es: seq<Event> :: Reaches(c, es, d)
  }

  lemma LeadsHere(c: Sender)
    ensures Leads(c, c)
  {
    assert Reaches(c, [], c);
  }

  lemma LeadsBy(c: Sender, e: Event, d: Sender)
    requires Possible(c, e) && Asserted(c, e) && Harmless(c, e) && Leads(Apply(c, e), d)
    ensures Leads(c, d)
  {
    hide Possible, Asserted, Harmless, Apply;
    var es: seq<Event> :| Reaches(Apply(c, e), es, d);
    assert ([e] + es)[1..] == es;
    assert Reaches(c, [e] + es, d);
  }

  lemma {:induction false} ReachesThenLeads(c: Sender, es: seq<Event>, d: Sender, f: Sender)
    requires Reaches(c, es, d) && Leads(d, f)
    ensures Leads(c, f)
    decreases |es|
  {
    hide Possible, Asserted, Harmless, Apply, Leads;
    if es != [] {
      ReachesThenLeads(Apply(c, es[0]), es[1..], d, f);
      LeadsBy(c, es[0], f);
    }
  }

  lemma LeadsThen(c: Sender, d: Sender, f: Sender)
    requires Leads(c, d) && Leads(d, f)
    ensures Leads(c, f)
  {
    hide Reaches;
    var es: seq<Event> :| Reaches(c, es, d);
    ReachesThenLeads(c, es, d, f);
  }

  /** What the peer gets is always a prefix of what was accepted. */
  ghost predicate WireStaysInOrder(c: Sender) {
    forall d: Sender :: Leads(c, d) ==> d.wire <= d.accepted
  }

  ghost predicate ShutsAtMostOnce(c: Sender) {
    forall d: Sender :: Leads(c, d) ==> d.shutdowns <= 1
  }

  ghost predicate AcceptsNoMore(c: Sender) {
    forall d: Sender :: Leads(c, d) ==> d.accepted == c.accepted
  }

  // ------------------------------------------------------------- empty sends

  lemma SoundFuture(c: Sender, d: Sender)
    requires Sound(c) && Leads(c, d)
    ensures Sound(d) && d.wire <= d.accepted
  {
    hide Conserved, SingleWriter;
    var es: seq<Event> :| Reaches(c, es, d);
    OutputConserved(c, es);
  }

  /** Two writes of the same bytes put them on the wire twice. */
  lemma BothWritten(c: Sender, data: seq<byte>) returns (d: Sender)
    requires c.writes == [Write(data, 0), Write(data, 0)]
    ensures Leads(c, d) && d.accepted == c.accepted && d.wire == c.wire + data + data
  {
    hide Leads;
    var n := |data|;
    var once := c.(writes := [Write(data, n), Write(data, 0)], wire := c.wire + data);
    d := c.(writes := [Write(data, n), Write(data, n)], wire := c.wire + data + data);
    assert data[0..n] == data;
    assert Apply(c, Transmits(0, n)) == once by {
      assert c.writes[0 := Write(data, n)] == once.writes;
    }
    assert Apply(once, Transmits(1, n)) == d by {
      assert once.writes[1 := Write(data, n)] == d.writes;
    }
    LeadsHere(d);
    LeadsBy(once, Transmits(1, n), d);
    LeadsBy(c, Transmits(0, n), d);
  }

  /**
   An empty send into an empty buffer starts a write that the next send cannot see: two
   writes are outstanding, and the peer gets the data twice.
   */
  lemma EmptySendDuplicates(c: Sender, data: seq<byte>) returns (d: Sender)
    requires Sound(c) && c.state == Connected && c.output == [] && data != []
    ensures Leads(SendInThisThread(c, []), d)
    ensures d.accepted == c.accepted + data && d.wire == c.wire + data + data
  {
    hide Leads;
    var c1 := SendInThisThread(c, []);
    var c2 := c1.(output := data, accepted := c.accepted + data, writes := [Write([], 0), Write(data, 0)]);
    var c3 := c2.(writes := [Write(data, 0), Write(data, 0)]);
    assert c1 == c.(writes := [Write([], 0)]) by { assert c.accepted + [] == c.accepted; }
    assert Apply(c1, Sends(data)) == c2 by { assert [] + data == data; }
    assert Apply(c2, Completes(0)) == c3 by {
      assert Without(c2.writes, 0) == [Write(data, 0)];
      assert data[0..] == data;
    }
    d := BothWritten(c3, data);
    LeadsBy(c2, Completes(0), d);
    LeadsBy(c1, Sends(data), d);
  }

  /**
   What the peer gets stays a prefix of what was accepted exactly if the bytes appended,
   by a send on the loop or by a queued one, are not none at a moment when none wait.
   */
  lemma AppendKeepsWireIff(c: Sender, data: seq<byte>)
    requires Sound(c) && c.state == Connected
    ensures WireStaysInOrder(SendInThisThread(c, data)) <==> data != [] || c.output != []
  {
    hide Leads, SendInThisThread;
    if data != [] || c.output != [] {
      SendKeeps(c, data);
      forall d: Sender | Leads(SendInThisThread(c, data), d) ensures d.wire <= d.accepted {
        SoundFuture(SendInThisThread(c, data), d);
      }
    } else {
      var d := EmptySendDuplicates(c, [0]);
      ShutdownIsComplete(c);
      assert |d.wire| > |d.accepted|;
    }
  }

  // ---------------------------------------------------------------- shutdown

  /** Before any shutdown() takes effect, with nothing but non-empty sends on the way. */
  predicate Open(c: Sender) {
    Sound(c) && Graceful(c) && NonEmptyTasks(c) && c.limit == NoLimit
  }

  /** Whatever non-empty sends and whatever else come first, a connection is open until then. */
  lemma {:induction false} OpenUntilShutdown(c: Sender, es: seq<Event>)
    requires Open(c) && Legal(c, es)
    requires forall e :: e in es ==> NonEmptySend(e)
    ensures Safe(c, es) && HarmlessRun(c, es)
    ensures Run(c, es).limit == NoLimit ==> Open(Run(c, es))
    decreases |es|
  {
    hide Sound, Graceful, Possible, Asserted, Apply, Harmless, NonEmptyTasks, NonEmptySend, TakesEffect, Orderly;
    NonEmptySendsAreHarmless(c, es);
    OutputConserved(c, es);
    if es != [] {
      assert es[0] in es;
      OpenStep(c, es[0]);
      if Apply(c, es[0]).limit == NoLimit {
        OpenUntilShutdown(Apply(c, es[0]), es[1..]);
      } else {
        LimitStays(Apply(c, es[0]), es[1..]);
      }
    }
  }

  lemma OpenStep(c: Sender, e: Event)
    requires Open(c) && Possible(c, e) && NonEmptySend(e)
    ensures Asserted(c, e)
    ensures Apply(c, e).limit == NoLimit ==> Open(Apply(c, e))
  {
    NonEmptyStep(c, e);
    SoundKept(c, e);
    hide Sound, Graceful;
    if Apply(c, e).limit == NoLimit {
      GracefulKept(c, e);
    }
  }

  lemma {:induction false} LimitStays(c: Sender, es: seq<Event>)
    requires c.limit != NoLimit && Legal(c, es) && Safe(c, es)
    ensures Run(c, es).limit == c.limit
    decreases |es|
  {
    if es != [] {
      LimitStep(c, es[0]);
      hide Apply, Possible, Asserted;
      LimitStays(Apply(c, es[0]), es[1..]);
    }
  }

  lemma LimitStep(c: Sender, e: Event)
    requires Possible(c, e) && Asserted(c, e) && c.limit != NoLimit
    ensures Apply(c, e).limit == c.limit
  {
  }

  /** After shutdown(), still able to write. */
  predicate Draining(c: Sender) {
    Sound(c) && NonEmptyTasks(c) && c.state == Disconnecting && !c.failed
  }

  /** The writes succeed: the last completion shuts the socket down. */
  lemma {:induction false} Drain(c: Sender) returns (d: Sender)
    requires Draining(c) && c.output != []
    ensures Leads(c, d) && Draining(d) && d.output == []
    ensures d.tasks == c.tasks && d.calls == c.calls
    ensures d.shutdowns == c.shutdowns + 1 && d.accepted == c.accepted
    decreases c.writes[0].snapshot != c.output
  {
    hide Leads, WireInOrder, Conserved;
    var write := c.writes[0];
    assert write.Valid() && write.snapshot <= c.output by { WriteFollowsOutput(c); }
    var n := |write.snapshot| - write.sent;
    var taken := Transmit(c, 0, n);
    TransmitKeeps(c, 0, n);
    var done := Complete(taken, 0);
    CompleteKeeps(taken, 0);
    if done.output == [] {
      d := done;
      LeadsHere(d);
    } else {
      assert done.writes == [Write(done.output, 0)] by { assert Without(taken.writes, 0) == []; }
      d := Drain(done);
    }
    LeadsBy(taken, Completes(0), d);
    LeadsBy(c, Transmits(0, n), d);
  }

  lemma WriteFollowsOutput(c: Sender)
    requires Sound(c) && !c.failed && c.output != []
    ensures c.writes == [c.writes[0]] && c.writes[0].Valid() && c.writes[0].snapshot <= c.output
  {
  }

  /** The other threads go on: every call they have begun ends up in the queue. */
  lemma {:induction false} AllAct(c: Sender) returns (d: Sender)
    requires Draining(c)
    ensures Leads(c, d) && Draining(d) && d.calls == []
    ensures |d.tasks| == |c.tasks| + |c.calls|
    ensures d.output == c.output && d.shutdowns == c.shutdowns
    decreases |c.calls|, c.calls != [] && c.calls[0].Stopping?
  {
    hide Leads, Sound;
    if c.calls == [] {
      d := c;
      LeadsHere(c);
    } else {
      assert c.calls[0] in c.calls;
      var acted := Act(c, 0);
      SoundKept(c, Acts(0));
      NonEmptyStep(c, Acts(0));
      d := AllAct(acted);
      LeadsBy(c, Acts(0), d);
    }
  }

  /** Running one more queued task shuts the socket down once more. */
  lemma RunShutsDown(c: Sender) returns (d: Sender)
    requires Draining(c) && c.output == [] && c.tasks != []
    ensures Leads(c, d) && Draining(d) && d.output == []
    ensures d.tasks == c.tasks[1..] && d.shutdowns == c.shutdowns + 1
  {
    hide Leads, Sound;
    assert c.tasks[0] in c.tasks;
    var ran := RunTask(c);
    SoundKept(c, Runs);
    if c.tasks[0].SendTask? {
      d := Drain(ran);
    } else {
      d := ran;
      LeadsHere(d);
    }
    LeadsBy(c, Runs, d);
  }

  /** What is still to come when shutdown() takes effect. */
  predicate NothingElse(c: Sender, e: Event) {
    c.tasks == [] && OtherCalls(c, e) == [] && (e.ShutsDown? || c.output == [])
  }

  lemma EffectStartsDraining(c: Sender, e: Event)
    requires Open(c) && TakesEffect(c, e) && !c.failed
    ensures Draining(Apply(c, e))
    ensures var shut := Apply(c, e);
      && shut.output == c.output && shut.shutdowns == (if e.ShutsDown? && c.output == [] then 1 else 0)
      && |shut.tasks| + |shut.calls| == |c.tasks| + |OtherCalls(c, e)| + (if e.ShutsDown? then 0 else 1)
  {
    NothingShutYet(c);
    SoundKept(c, e);
    hide Sound, Graceful;
    NonEmptyStep(c, e);
  }

  /** Draining what waits, and then running one task after the other, shuts down each time. */
  lemma ShutsDownTwice(c: Sender, e: Event) returns (d: Sender)
    requires Open(c) && TakesEffect(c, e) && !c.failed && !NothingElse(c, e)
    ensures Leads(Apply(c, e), d) && d.shutdowns == 2
  {
    EffectStartsDraining(c, e);
    hide Leads, Sound, Graceful, Apply;
    var shut := Apply(c, e);
    var posted := AllAct(shut);
    var first := posted;
    if c.output != [] {
      first := Drain(posted);
      LeadsThen(shut, posted, first);
    }
    d := RunShutsDown(first);
    LeadsThen(shut, first, d);
    if d.shutdowns < 2 {
      var earlier := d;
      d := RunShutsDown(earlier);
      LeadsThen(shut, earlier, d);
    }
  }

  lemma NothingShutYet(c: Sender)
    requires Open(c)
    ensures c.shutdowns == 0 && Posting !in c.calls && forall t :: t in c.tasks ==> t.SendTask?
  {
  }

  /** After a failed write the output buffer never empties, and the socket is never shut. */
  lemma {:induction false} FailedNeverShuts(c: Sender, es: seq<Event>)
    requires Sound(c) && c.failed && Legal(c, es) && Safe(c, es) && HarmlessRun(c, es)
    ensures Run(c, es).shutdowns == c.shutdowns
    decreases |es|
  {
    hide Sound, Possible, Asserted, Apply, Harmless;
    if es != [] {
      SoundKept(c, es[0]);
      FailedStep(c, es[0]);
      FailedNeverShuts(Apply(c, es[0]), es[1..]);
    }
  }

  lemma FailedStep(c: Sender, e: Event)
    requires Sound(c) && c.failed && Possible(c, e) && Asserted(c, e)
    ensures Apply(c, e).shutdowns == c.shutdowns
  {
    hide WireInOrder, Conserved;
  }

  /** Once shutdown() has taken effect in good order, whatever follows is in good order. */
  lemma {:induction false} OrderlyAfterwards(c: Sender, es: seq<Event>)
    requires Sound(c) && Graceful(c) && c.limit != NoLimit
    requires Legal(c, es) && Safe(c, es) && HarmlessRun(c, es)
    ensures OrderlyRun(c, es)
    decreases |es|
  {
    hide Sound, Possible, Asserted, Apply, Harmless;
    if es != [] {
      assert Orderly(c, es[0]);
      hide Graceful, Orderly;
      SoundKept(c, es[0]);
      GracefulKept(c, es[0]);
      OrderlyAfterwards(Apply(c, es[0]), es[1..]);
    }
  }

  lemma OrderlyShutdownShutsOnce(c: Sender, e: Event, d: Sender)
    requires Open(c) && TakesEffect(c, e) && Orderly(c, e) && Leads(Apply(c, e), d)
    ensures d.shutdowns <= 1
  {
    var shut := Apply(c, e);
    assert shut.limit != NoLimit;
    hide Sound, Apply, Legal, Safe, Run, OrderlyRun, HarmlessRun, Orderly, TakesEffect;
    SoundKept(c, e);
    GracefulKept(c, e);
    var es: seq<Event> :| Reaches(shut, es, d);
    OrderlyAfterwards(shut, es);
    GracefulShutdown(shut, es);
  }

  lemma FailedShutdown(c: Sender, e: Event)
    requires Open(c) && TakesEffect(c, e) && c.failed
    ensures Sound(Apply(c, e)) && Apply(c, e).failed && Apply(c, e).shutdowns == 0
  {
    SoundKept(c, e);
    FailedStep(c, e);
    NothingShutYet(c);
  }

  /**
   A shutdown() that takes effect shuts the socket at most once, whatever follows, exactly
   if nothing can be written any more; or no send is queued, no other call is between its
   test and its act, and the call came on the loop or finds nothing left to write.
   */
  lemma ShutsAtMostOnceIff(c: Sender, e: Event)
    requires Open(c) && TakesEffect(c, e)
    ensures ShutsAtMostOnce(Apply(c, e)) <==>
      c.failed || (c.tasks == [] && OtherCalls(c, e) == [] && (e.ShutsDown? || c.output == []))
  {
    var shut := Apply(c, e);
    assert NothingElse(c, e) ==> Orderly(c, e);
    assert NothingElse(c, e) <==> c.tasks == [] && OtherCalls(c, e) == [] && (e.ShutsDown? || c.output == []);
    hide Leads, Apply, Open, Orderly, NothingElse, TakesEffect, OtherCalls, Sound;
    if c.failed {
      FailedShutdown(c, e);
      forall d: Sender | Leads(shut, d) ensures d.shutdowns <= 1 {
        FailedFuture(shut, d);
      }
    } else if NothingElse(c, e) {
      forall d: Sender | Leads(shut, d) ensures d.shutdowns <= 1 {
        OrderlyShutdownShutsOnce(c, e, d);
      }
    } else {
      var d := ShutsDownTwice(c, e);
    }
  }

  lemma FailedFuture(c: Sender, d: Sender)
    requires Sound(c) && c.failed && Leads(c, d)
    ensures d.shutdowns == c.shutdowns
  {
    hide Sound;
    var es: seq<Event> :| Reaches(c, es, d);
    FailedNeverShuts(c, es);
  }

  /** Shut down, or on the way, with no send queued or about to be. */
  predicate TakesNoMore(c: Sender) {
    (c.state == Disconnecting || c.state == Disconnected) && NothingToSend(c)
  }

  lemma TakesNoMoreStep(c: Sender, e: Event)
    requires TakesNoMore(c) && Possible(c, e) && Asserted(c, e)
    ensures TakesNoMore(Apply(c, e)) && Apply(c, e).accepted == c.accepted
  {
    if e.Runs? {
      assert c.tasks[0] in c.tasks;
    }
    if e.Acts? {
      assert c.calls[e.i] in c.calls;
    }
  }

  lemma {:induction false} NothingAccepted(c: Sender, es: seq<Event>)
    requires TakesNoMore(c) && Legal(c, es) && Safe(c, es)
    ensures Run(c, es).accepted == c.accepted
    decreases |es|
  {
    hide TakesNoMore, Possible, Asserted, Apply;
    if es != [] {
      TakesNoMoreStep(c, es[0]);
      NothingAccepted(Apply(c, es[0]), es[1..]);
    }
  }

  /**
   A send still queued when shutdown() takes effect is accepted afterwards, even when the
   call has already shut the socket.
   */
  lemma QueuedSendOutlivesShutdown(c: Sender, e: Event) returns (d: Sender)
    requires Open(c) && TakesEffect(c, e) && c.tasks != []
    ensures Leads(Apply(c, e), d)
    ensures d.accepted == c.accepted + c.tasks[0].data && d.accepted != c.accepted
    ensures e.ShutsDown? && c.output == [] ==> d.shutdowns == 1
  {
    NothingShutYet(c);
    var shut := Apply(c, e);
    assert c.tasks[0] in c.tasks && shut.tasks[0] == c.tasks[0];
    hide Sound, Graceful, Leads;
    d := Apply(shut, Runs);
    LeadsHere(d);
    LeadsBy(shut, Runs, d);
  }

  /** So is a send that had found the connection connected and posts only then. */
  lemma LateSendOutlivesShutdown(c: Sender, e: Event, i: nat) returns (d: Sender)
    requires Open(c) && TakesEffect(c, e) && c.tasks == [] && i < |c.calls| && c.calls[i].Sending?
    ensures Leads(Apply(c, e), d)
    ensures d.accepted == c.accepted + c.calls[i].data && d.accepted != c.accepted
    ensures e.ShutsDown? && c.output == [] ==> d.shutdowns == 1
  {
    NothingShutYet(c);
    var shut := Apply(c, e);
    assert c.calls[i] in c.calls && shut.calls[i] == c.calls[i];
    hide Sound, Graceful, Leads;
    var posted := Apply(shut, Acts(i));
    d := Apply(posted, Runs);
    LeadsHere(d);
    LeadsBy(posted, Runs, d);
    LeadsBy(shut, Acts(i), d);
  }

  /**
   Nothing is accepted after a shutdown() took effect exactly if no send is queued then,
   and none is between its test and its act.
   */
  lemma AcceptsNoMoreIff(c: Sender, e: Event)
    requires Open(c) && TakesEffect(c, e)
    ensures AcceptsNoMore(Apply(c, e)) <==> c.tasks == [] && NoneSending(OtherCalls(c, e))
  {
    var shut := Apply(c, e);
    assert shut.accepted == c.accepted;
    if c.tasks == [] {
      NoSendLeft(c, e);
    }
    hide Apply, Open, Sound, TakesEffect, OtherCalls, NoneSending, TakesNoMore;
    if c.tasks != [] {
      var d := QueuedSendOutlivesShutdown(c, e);
    } else if NoneSending(OtherCalls(c, e)) {
      forall d: Sender | Leads(shut, d) ensures d.accepted == shut.accepted {
        var es: seq<Event> :| Reaches(shut, es, d);
        NothingAccepted(shut, es);
      }
    } else {
      var i :| 0 <= i < |c.calls| && c.calls[i].Sending?;
      var d := LateSendOutlivesShutdown(c, e, i);
    }
  }

  lemma NoSendLeft(c: Sender, e: Event)
    requires Open(c) && TakesEffect(c, e) && c.tasks == []
    ensures NoneSending(OtherCalls(c, e)) ==> TakesNoMore(Apply(c, e))
    ensures !NoneSending(OtherCalls(c, e)) ==> exists i :: 0 <= i < |c.calls| && c.calls[i].Sending?
  {
    hide Sound, Graceful;
    var others := OtherCalls(c, e);
    if NoneSending(others) {
      forall call | call in Apply(c, e).calls ensures !call.Sending? {
        var j :| 0 <= j < |Apply(c, e).calls| && Apply(c, e).calls[j] == call;
        if e.Acts? && j != e.i {
          assert call == others[if j < e.i then j else j - 1];
        }
      }
    } else {
      var j :| 0 <= j < |others| && others[j].Sending?;
      assert others[j] == c.calls[if e.Acts? && j >= e.i then j + 1 else j];
    }
  }

  /** So both promises are kept exactly by the calls that GracefulShutdown asks for. */
  lemma GracefulIffOrderly(c: Sender, e: Event)
    requires Open(c) && TakesEffect(c, e)
    ensures ShutsAtMostOnce(Apply(c, e)) && AcceptsNoMore(Apply(c, e)) <==> Orderly(c, e)
  {
    hide ShutsAtMostOnce, AcceptsNoMore, Sound, Graceful;
    ShutsAtMostOnceIff(c, e);
    AcceptsNoMoreIff(c, e);
  }

  /**
   A connection that stays in the hands of its loop keeps both promises: with no call on
   another thread under way and no send queued, shutdown() on the loop is orderly.
   */
  lemma ShutdownOnLoopIsOrderly(c: Sender)
    requires Open(c) && c.state == Connected && c.tasks == [] && c.calls == []
    ensures ShutsAtMostOnce(ShutdownOnLoop(c)) && AcceptsNoMore(ShutdownOnLoop(c))
  {
    hide ShutsAtMostOnce, AcceptsNoMore, Sound, Graceful;
    GracefulIffOrderly(c, ShutsDown);
  }

  // ------------------------------------------------------- opening and closing

  /**
   connectEstablished opens the connection for sends: the first bytes sent on the loop are
   accepted, and with nothing waiting they are at once the one write outstanding.
   */
  lemma EstablishedAccepts(c: Sender, data: seq<byte>)
    requires Sound(c) && c.state == Connecting && data != []
    ensures Legal(c, [Established, Sends(data)]) && Safe(c, [Established, Sends(data)])
    ensures var d := Run(c, [Established, Sends(data)]);
      && d.state == Connected && d.accepted == c.accepted + data && d.output == c.output + data
      && (c.output == [] ==> d.writes == [Write(data, 0)])
      && (c.output != [] ==> d.writes == c.writes)
      && d.wire == c.wire && d.confirmed == c.confirmed && d.shutdowns == c.shutdowns
  {
    var es := [Established, Sends(data)];
    var up := Apply(c, Established);
    var d := Apply(up, Sends(data));
    assert es[1..] == [Sends(data)];
    RunOfOne(up, Sends(data));
    if c.output == [] {
      assert [] + data == data;
      assert [] + [Write(data, 0)] == [Write(data, 0)];
    }
  }

  lemma RunOfOne(c: Sender, e: Event)
    requires Possible(c, e) && Asserted(c, e)
    ensures Legal(c, [e]) && Safe(c, [e]) && Run(c, [e]) == Apply(c, e)
  {
    hide Possible, Asserted, Apply;
    var es := [e];
    assert es[1..] == [];
    assert Legal(Apply(c, e), []) && Safe(Apply(c, e), []);
  }

  /** Closed for good: no call of shutdown() is left that could set state_ once more. */
  predicate StaysClosed(c: Sender) {
    c.state == Disconnected && Stopping !in c.calls
  }

  lemma StaysClosedStep(c: Sender, e: Event)
    requires StaysClosed(c) && Possible(c, e) && Asserted(c, e)
    ensures StaysClosed(Apply(c, e)) && Apply(c, e).accepted == c.accepted
  {
    if e.Acts? {
      assert c.calls[e.i] in c.calls;
    }
  }

  lemma {:induction false} ClosedAcceptsNothing(c: Sender, es: seq<Event>)
    requires StaysClosed(c) && Legal(c, es) && Safe(c, es)
    ensures Run(c, es).accepted == c.accepted && Run(c, es).state == Disconnected
    decreases |es|
  {
    hide StaysClosed, Possible, Asserted, Apply;
    if es == [] {
      assert c.state == Disconnected by { StillClosed(c); }
    } else {
      StaysClosedStep(c, es[0]);
      ClosedAcceptsNothing(Apply(c, es[0]), es[1..]);
    }
  }

  lemma StillClosed(c: Sender)
    requires StaysClosed(c)
    ensures c.state == Disconnected
  {
  }

  /** Some send is queued, or has passed its test. */
  predicate SendUnderWay(c: Sender) {
    (exists t :: t in c.tasks && t.SendTask?) || exists call :: call in c.calls && call.Sending?
  }

  /** Running the queue as far as its first send accepts the bytes of that send. */
  lemma {:induction false} QueueAccepts(c: Sender) returns (d: Sender)
    requires Sound(c) && NonEmptyTasks(c) && c.state == Disconnecting
    requires exists t :: t in c.tasks && t.SendTask?
    ensures Leads(c, d) && d.accepted != c.accepted
    decreases |c.tasks|
  {
    hide Leads, Sound;
    var ran := RunTask(c);
    assert c.tasks[0] in c.tasks;
    SoundKept(c, Runs);
    if c.tasks[0].SendTask? {
      d := ran;
      LeadsHere(d);
    } else {
      var t :| t in c.tasks && t.SendTask?;
      assert t in ran.tasks;
      d := QueueAccepts(ran);
    }
    LeadsBy(c, Runs, d);
  }

  /** The call in the middle of a send posts it, and the queue then accepts it. */
  lemma LateSendAccepted(c: Sender) returns (d: Sender)
    requires Sound(c) && NonEmptyTasks(c) && c.state == Disconnecting && SendUnderWay(c)
    ensures Leads(c, d) && d.accepted != c.accepted
  {
    hide Leads, Sound;
    if t :| t in c.tasks && t.SendTask? {
      d := QueueAccepts(c);
    } else {
      var i :| 0 <= i < |c.calls| && c.calls[i].Sending?;
      var posted := Act(c, i);
      SoundKept(c, Acts(i));
      NonEmptyStep(c, Acts(i));
      assert SendTask(c.calls[i].data) in posted.tasks;
      d := QueueAccepts(posted);
      LeadsBy(c, Acts(i), d);
    }
  }

  /**
   After a close nothing is accepted, in any future, exactly if no shutdown() on another
   thread is between its test and its set, or no send is queued or past its test: the
   set would make a closed connection kDisconnecting again.
   */
  lemma ClosedAcceptsNoMoreIff(c: Sender)
    requires Sound(c) && NonEmptyTasks(c) && Possible(c, Closes)
    ensures AcceptsNoMore(Apply(c, Closes)) <==> Stopping !in c.calls || !SendUnderWay(c)
  {
    var closed := Apply(c, Closes);
    assert closed.accepted == c.accepted;
    if Stopping !in c.calls {
      hide Sound;
      forall d: Sender | Leads(closed, d) ensures d.accepted == closed.accepted {
        var es: seq<Event> :| Reaches(closed, es, d);
        ClosedAcceptsNothing(closed, es);
      }
    } else if !SendUnderWay(c) {
      hide Sound;
      forall d: Sender | Leads(closed, d) ensures d.accepted == closed.accepted {
        var es: seq<Event> :| Reaches(closed, es, d);
        NothingAccepted(closed, es);
      }
    } else {
      var d := ReopenedAccepts(c);
    }
  }

  lemma ReopenedAccepts(c: Sender) returns (d: Sender)
    requires Sound(c) && NonEmptyTasks(c) && Possible(c, Closes) && Stopping in c.calls && SendUnderWay(c)
    ensures Leads(Apply(c, Closes), d) && d.accepted != c.accepted
  {
    var closed := Apply(c, Closes);
    SameBytes(c, closed);
    hide Leads, Sound;
    var i :| 0 <= i < |c.calls| && c.calls[i].Stopping?;
    var reopened := Act(closed, i);
    SoundKept(closed, Acts(i));
    SetLeavesSends(closed, i);
    d := LateSendAccepted(reopened);
    LeadsBy(closed, Acts(i), d);
  }

  lemma SetLeavesSends(c: Sender, i: nat)
    requires NonEmptyTasks(c) && SendUnderWay(c) && i < |c.calls| && c.calls[i].Stopping?
    ensures NonEmptyTasks(Act(c, i)) && SendUnderWay(Act(c, i)) && Act(c, i).state == Disconnecting
  {
    NonEmptyStep(c, Acts(i));
    if call :| call in c.calls && call.Sending? {
      OthersStay(c, i);
      assert call in Act(c, i).calls;
    }
  }
}
