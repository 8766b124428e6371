/** Runs of a sender and a receiver in which everything arrives. */
module DeliveryRuns {
  import opened Bytes
  import opened ConnectionStates
  import opened Delivery
  import Out = SendSide
  import In = ReadSide
  import P = ProtobufCodec
  import PS = ProtobufStream

  ghost predicate Reaches(registered: set<seq<byte>>, s: System, es: seq<Event>, t: System) {
    Legal(registered, s, es) && Safe(registered, s, es) && Run(registered, s, es) == t
  }

  ghost predicate Leads(registered: set<seq<byte>>, s: System, t: System) {
    exists es: seq<Event> :: Reaches(registered, s, es, t)
  }

  lemma LeadsHere(registered: set<seq<byte>>, s: System)
    ensures Leads(registered, s, s)
  {
    assert Reaches(registered, s, [], s);
  }

  lemma LeadsBy(registered: set<seq<byte>>, s: System, e: Event, t: System)
    requires s.rx.stream <= s.tx.wire && Possible(registered, s, e) && Good(registered, s, e)
    requires Leads(registered, Apply(registered, s, e), t)
    ensures Leads(registered, s, t)
  {
    hide Possible, Good, Apply;
    var es: seq<Event> :| Reaches(registered, Apply(registered, s, e), es, t);
    assert ([e] + es)[1..] == es;
    assert Reaches(registered, s, [e] + es, t);
  }

  lemma {:induction false} ReachesThenLeads(registered: set<seq<byte>>, s: System, es: seq<Event>, t: System, u: System)
    requires Reaches(registered, s, es, t) && Leads(registered, t, u)
    ensures Leads(registered, s, u)
    decreases |es|
  {
    hide Possible, Good, Apply, Leads;
    if es != [] {
      ReachesThenLeads(registered, Apply(registered, s, es[0]), es[1..], t, u);
      LeadsBy(registered, s, es[0], u);
    }
  }

  lemma LeadsThen(registered: set<seq<byte>>, s: System, t: System, u: System)
    requires Leads(registered, s, t) && Leads(registered, t, u)
    ensures Leads(registered, s, u)
  {
    hide Reaches;
    var es: seq<Event> :| Reaches(registered, s, es, t);
    ReachesThenLeads(registered, s, es, t, u);
  }

  /** Connected, with nothing on its way to the wire, and the receiver between two frames. */
  ghost predicate Calm(registered: set<seq<byte>>, s: System) {
    && Invariant(registered, s)
    && s.tx.state == Connected && s.tx.output == [] && !s.tx.failed
    && s.rx.pending == In.HeaderRead
  }

  /** Calm, with no send from another thread on its way either. */
  ghost predicate Resting(registered: set<seq<byte>>, s: System) {
    Calm(registered, s) && s.tx.tasks == [] && s.tx.calls == []
  }

  lemma CalmWire(registered: set<seq<byte>>, s: System)
    requires Calm(registered, s)
    ensures s.tx.writes == [] && s.tx.wire == s.tx.accepted == Stream(s.sent)
    ensures s.rx.stream == Stream(s.delivered) && s.delivered <= s.sent
  {
    hide P.Frame, In.InStep, Stream;
  }

  /** A send on the loop appends the frame of the message and starts its write. */
  lemma SendAccepted(registered: set<seq<byte>>, s: System, m: P.Message)
    requires Resting(registered, s) && PS.Deliverable(registered, m)
    ensures Good(registered, s, Sends(m)) && Invariant(registered, Apply(registered, s, Sends(m)))
    ensures var t := Apply(registered, s, Sends(m));
      t == s.(tx := s.tx.(output := P.Frame(m), writes := [Out.Write(P.Frame(m), 0)], accepted := t.tx.accepted),
              sent := s.sent + [m])
  {
    CalmWire(registered, s);
    hide P.Frame, Stream, Invariant;
    StepKeeps(registered, s, Sends(m));
    assert [] + P.Frame(m) == P.Frame(m);
  }

  /** A send from another thread that nothing disturbs: its test, its post, and its task. */
  lemma PostedSend(c: Out.Sender, data: seq<byte>)
    requires c.state == Connected && c.tasks == [] && c.calls == []
    ensures var tested := Out.Tested(c, Out.Sending(data));
      && tested.calls == [Out.Sending(data)]
      && var posted := Out.Act(tested, 0);
      && posted.tasks == [Out.SendTask(data)]
      && Out.RunTask(posted) == Out.SendInThisThread(c, data)
  {
    assert [Out.Sending(data)][..0] + [Out.Sending(data)][1..] == [];
    assert [] + [Out.SendTask(data)] == [Out.SendTask(data)];
    assert [Out.SendTask(data)][1..] == [];
  }

  /** A step of the transport changes the sending half only. */
  lemma TransportStep(registered: set<seq<byte>>, s: System, e: Out.Event)
    requires Invariant(registered, s) && Possible(registered, s, Transport(e))
    ensures s.rx.stream <= s.tx.wire && Good(registered, s, Transport(e))
    ensures Invariant(registered, Apply(registered, s, Transport(e)))
    ensures Apply(registered, s, Transport(e)) == s.(tx := Out.Apply(s.tx, e))
  {
    InOrder(registered, s);
    hide Invariant, Out.Apply;
    StepKeeps(registered, s, Transport(e));
    assert s.sent + [] == s.sent;
  }

  lemma TestStep(registered: set<seq<byte>>, s: System, m: P.Message)
    requires Invariant(registered, s) && PS.Deliverable(registered, m)
    ensures s.rx.stream <= s.tx.wire && Good(registered, s, SendsElsewhere(m))
    ensures Invariant(registered, Apply(registered, s, SendsElsewhere(m)))
    ensures Apply(registered, s, SendsElsewhere(m)) == s.(tx := Out.Tested(s.tx, Out.Sending(P.Frame(m))))
  {
    InOrder(registered, s);
    hide Invariant, P.Frame, Out.Tested;
    StepKeeps(registered, s, SendsElsewhere(m));
    assert s.sent + [] == s.sent;
  }

  lemma RunStep(registered: set<seq<byte>>, s: System, m: P.Message)
    requires Invariant(registered, s) && PS.Deliverable(registered, m)
    requires s.tx.tasks == [Out.SendTask(P.Frame(m))] && s.tx.state == Connected
    ensures s.rx.stream <= s.tx.wire
    ensures Possible(registered, s, RunsSend(m)) && Good(registered, s, RunsSend(m))
    ensures Apply(registered, s, RunsSend(m)) == s.(tx := Out.RunTask(s.tx), sent := s.sent + [m])
  {
    InOrder(registered, s);
    hide Invariant, P.Frame, Out.RunTask;
    StepKeeps(registered, s, RunsSend(m));
  }

  lemma LoopStep(registered: set<seq<byte>>, s: System, m: P.Message)
    requires Invariant(registered, s) && PS.Deliverable(registered, m) && s.tx.state == Connected
    ensures s.rx.stream <= s.tx.wire && Good(registered, s, Sends(m))
    ensures Apply(registered, s, Sends(m)) == s.(tx := Out.SendInThisThread(s.tx, P.Frame(m)), sent := s.sent + [m])
  {
    InOrder(registered, s);
    hide Invariant, P.Frame, Out.SendInThisThread;
    StepKeeps(registered, s, Sends(m));
  }

  /** It ends where the send on the loop ends. */
  lemma SendElsewhereAccepted(registered: set<seq<byte>>, s: System, m: P.Message)
    requires Resting(registered, s) && PS.Deliverable(registered, m)
    ensures s.rx.stream <= s.tx.wire && Leads(registered, s, Apply(registered, s, Sends(m)))
  {
    LoopStep(registered, s, m);
    TestStep(registered, s, m);
    PostedSend(s.tx, P.Frame(m));
    var test, acts, runs := SendsElsewhere(m), Transport(Out.Acts(0)), RunsSend(m);
    var tested := Apply(registered, s, test);
    assert Possible(registered, tested, acts) by { InOrder(registered, tested); }
    hide P.Frame, Invariant, Leads, Out.Tested, Out.Act, Out.RunTask, Out.SendInThisThread;
    TransportStep(registered, tested, Out.Acts(0));
    var posted := Apply(registered, tested, acts);
    assert posted == s.(tx := Out.Act(tested.tx, 0));
    RunStep(registered, posted, m);
    var sent := Apply(registered, s, Sends(m));
    assert Apply(registered, posted, runs) == sent;
    hide Apply, Good, Possible;
    LeadsHere(registered, sent);
    LeadsBy(registered, posted, runs, sent);
    LeadsBy(registered, tested, acts, sent);
    LeadsBy(registered, s, test, sent);
  }

  lemma InOrder(registered: set<seq<byte>>, s: System)
    requires Invariant(registered, s)
    ensures s.rx.stream <= s.tx.wire
  {
  }

  /** One write of one frame, taken whole and completed. */
  lemma WriteFinished(c: Out.Sender, frame: seq<byte>)
    requires c.writes == [Out.Write(frame, 0)] && c.output == frame && c.state == Connected
    ensures var taken := Out.Transmit(c, 0, |frame|);
      && taken == c.(writes := [Out.Write(frame, |frame|)], wire := c.wire + frame)
      && Out.Complete(taken, 0) == taken.(writes := [], output := [], confirmed := c.confirmed + |frame|)
  {
    assert frame[0..|frame|] == frame && frame[|frame|..] == [];
    assert c.writes[0 := Out.Write(frame, |frame|)] == [Out.Write(frame, |frame|)];
  }

  /** The kernel takes the frame, and the write completes. */
  lemma FrameWritten(registered: set<seq<byte>>, s: System, frame: seq<byte>) returns (t: System)
    requires Invariant(registered, s)
    requires s.tx.writes == [Out.Write(frame, 0)] && s.tx.output == frame && !s.tx.failed && s.tx.state == Connected
    ensures Leads(registered, s, t) && Invariant(registered, t)
    ensures t.rx == s.rx && t.sent == s.sent && t.delivered == s.delivered
    ensures t.tx == s.tx.(output := [], writes := [], wire := t.tx.wire, confirmed := t.tx.confirmed)
  {
    InOrder(registered, s);
    WriteFinished(s.tx, frame);
    hide Invariant, Leads, Out.Transmit, Out.Complete;
    var takes, completes := Transport(Out.Transmits(0, |frame|)), Transport(Out.Completes(0));
    TransportStep(registered, s, Out.Transmits(0, |frame|));
    var taken := Apply(registered, s, takes);
    InOrder(registered, taken);
    TransportStep(registered, taken, Out.Completes(0));
    t := Apply(registered, taken, completes);
    hide Apply, Good, Possible;
    LeadsHere(registered, t);
    LeadsBy(registered, taken, completes, t);
    LeadsBy(registered, s, takes, t);
  }

  /** The receiver reads one frame that is on the wire. */
  lemma FrameRead(registered: set<seq<byte>>, s: System) returns (t: System)
    requires Calm(registered, s) && |s.delivered| < |s.sent|
    ensures Leads(registered, s, t) && Calm(registered, t)
    ensures t.tx == s.tx && t.sent == s.sent && t.delivered == s.delivered + [s.sent[|s.delivered|]]
  {
    CalmWire(registered, s);
    FrameAvailable(registered, s);
    hide P.Frame, P.Body, Out.Sound, In.InStep, In.Apply, PS.Drained, Stream, Leads;
    StepKeeps(registered, s, HeaderArrives);
    var headed := Apply(registered, s, HeaderArrives);
    BodyAvailable(registered, s);
    BodyKeeps(registered, headed);
    t := Apply(registered, headed, BodyArrives);
    NextIsHeader(registered, headed);
    LeadsHere(registered, t);
    LeadsBy(registered, headed, BodyArrives, t);
    LeadsBy(registered, s, HeaderArrives, t);
  }

  /** The frame of the next undelivered message is on the wire, and not yet read. */
  lemma FrameAvailable(registered: set<seq<byte>>, s: System)
    requires Calm(registered, s) && |s.delivered| < |s.sent|
    ensures P.Representable(s.sent[|s.delivered|])
    ensures s.rx.stream <= s.tx.wire
    ensures |Available(s)| >= |P.Frame(s.sent[|s.delivered|])| >= In.HEADER_LEN
  {
    CalmWire(registered, s);
    hide P.Frame, In.InStep, Stream;
    var k := |s.delivered|;
    assert s.sent[..k] == s.delivered;
    StreamAfter(s.sent, k);
    HeaderOfFrame(s.sent[k]);
  }

  lemma BodyAvailable(registered: set<seq<byte>>, s: System)
    requires Calm(registered, s) && |s.delivered| < |s.sent|
    requires Possible(registered, s, HeaderArrives) && Good(registered, s, HeaderArrives)
    requires Invariant(registered, Apply(registered, s, HeaderArrives))
    ensures var headed := Apply(registered, s, HeaderArrives);
      headed.rx.stream <= headed.tx.wire && Possible(registered, headed, BodyArrives)
  {
    FrameAvailable(registered, s);
    HeaderOfFrame(s.sent[|s.delivered|]);
    hide P.Frame, P.Body, Out.Sound, PS.Drained, Stream, Decode, In.InStep;
    var headed := Apply(registered, s, HeaderArrives);
    assert headed.rx.pending.BodyRead?;
    assert |headed.rx.stream| == |s.rx.stream| + In.HEADER_LEN;
  }

  lemma NextIsHeader(registered: set<seq<byte>>, s: System)
    requires s.rx.stream <= s.tx.wire && Possible(registered, s, BodyArrives) && Good(registered, s, BodyArrives)
    ensures Apply(registered, s, BodyArrives).rx.pending == In.HeaderRead
  {
    hide PS.Drained;
  }

  /** One message, from either thread to the callback. */
  lemma OneDelivered(registered: set<seq<byte>>, s: System, m: P.Message, elsewhere: bool) returns (t: System)
    requires Resting(registered, s) && s.delivered == s.sent && PS.Deliverable(registered, m)
    ensures Leads(registered, s, t) && Resting(registered, t)
    ensures t.sent == t.delivered == s.sent + [m]
  {
    assert s.rx.stream <= s.tx.wire;
    SendAccepted(registered, s, m);
    SendElsewhereAccepted(registered, s, m);
    var sent := Apply(registered, s, Sends(m));
    hide P.Frame, Invariant, Leads, Good, Apply;
    if !elsewhere {
      LeadsHere(registered, sent);
      LeadsBy(registered, s, Sends(m), sent);
    }
    var written := FrameWritten(registered, sent, P.Frame(m));
    t := FrameRead(registered, written);
    LeadsThen(registered, sent, written, t);
    LeadsThen(registered, s, sent, t);
  }

  lemma {:induction false} AllDelivered(
    registered: set<seq<byte>>, s: System, ms: seq<P.Message>, elsewhere: seq<bool>) returns (t: System)
    requires Resting(registered, s) && s.delivered == s.sent
    requires PS.AllDeliverable(registered, ms) && |elsewhere| == |ms|
    ensures Leads(registered, s, t) && t.sent == t.delivered == s.sent + ms
    decreases |ms|
  {
    hide Resting, Leads, PS.Deliverable;
    if ms == [] {
      t := s;
      LeadsHere(registered, s);
      assert s.sent + [] == s.sent;
    } else {
      var next := OneDelivered(registered, s, ms[0], elsewhere[0]);
      t := AllDelivered(registered, next, ms[1..], elsewhere[1..]);
      LeadsThen(registered, s, next, t);
      assert s.sent + [ms[0]] + ms[1..] == s.sent + ms;
    }
  }

  /** connectEstablished brings a new connection to rest. */
  lemma OpensResting(registered: set<seq<byte>>)
    ensures INITIAL.rx.stream <= INITIAL.tx.wire
    ensures Possible(registered, INITIAL, Transport(Out.Established))
    ensures Good(registered, INITIAL, Transport(Out.Established))
    ensures var up := Apply(registered, INITIAL, Transport(Out.Established));
      Resting(registered, up) && up.sent == up.delivered == []
  {
    InitialInvariant(registered);
    hide Invariant;
    StepKeeps(registered, INITIAL, Transport(Out.Established));
  }

  /**
   Every sequence of deliverable messages, each sent from the thread one likes, can be
   delivered whole: some run from the opening of the connection ends with exactly these
   messages sent and exactly these callbacks fired.
   */
  lemma EverythingDeliverable(registered: set<seq<byte>>, ms: seq<P.Message>, elsewhere: seq<bool>)
    requires PS.AllDeliverable(registered, ms) && |elsewhere| == |ms|
    ensures exists es: seq<Event> ::
      && Legal(registered, INITIAL, es) && Safe(registered, INITIAL, es)
      && Run(registered, INITIAL, es).sent == Run(registered, INITIAL, es).delivered == ms
  {
    hide Possible, Good, Apply, Resting;
    OpensResting(registered);
    var up := Apply(registered, INITIAL, Transport(Out.Established));
    var t := AllDelivered(registered, up, ms, elsewhere);
    assert [] + ms == ms;
    LeadsBy(registered, INITIAL, Transport(Out.Established), t);
    var es: seq<Event> :| Reaches(registered, INITIAL, es, t);
  }

  /** A failed read is the last: the receiver reads no more, and nothing else changes. */
  lemma ReadFailureStops(registered: set<seq<byte>>, s: System)
    requires s.rx.stream <= s.tx.wire && Possible(registered, s, ReadFails)
    ensures Apply(registered, s, ReadFails) == s.(rx := s.rx.(pending := In.Idle))
  {
  }

  /** From then on nothing is delivered, whatever the sender does. */
  lemma {:induction false} IdleDeliversNothing(registered: set<seq<byte>>, s: System, es: seq<Event>)
    requires s.rx.pending == In.Idle && Legal(registered, s, es) && Safe(registered, s, es)
    ensures Run(registered, s, es).delivered == s.delivered && Run(registered, s, es).rx == s.rx
    decreases |es|
  {
    if es != [] {
      IdleStep(registered, s, es[0]);
      hide Possible, Good, Apply;
      IdleDeliversNothing(registered, Apply(registered, s, es[0]), es[1..]);
    }
  }

  lemma IdleStep(registered: set<seq<byte>>, s: System, e: Event)
    requires s.rx.pending == In.Idle
    requires s.rx.stream <= s.tx.wire && Possible(registered, s, e) && Good(registered, s, e)
    ensures Apply(registered, s, e).rx == s.rx && Apply(registered, s, e).delivered == s.delivered
  {
    hide Out.Apply, P.Frame, PS.Drained;
  }
}
