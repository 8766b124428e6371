/** Runs of a TcpServer: the whole life of a connection, and a shutdown() that comes too late. */
module TcpServerRuns {
  import opened ConnectionStates
  import opened TcpServers
  import N = ConnectionNames

  ghost predicate Reaches(s: Server, es: seq<Event>, t: Server) {
    Legal(s, es) && Safe(s, es) && Run(s, es) == t
  }

  ghost predicate Leads(s: Server, t: Server) {
    exists es: seq<Event> :: Reaches(s, es, t)
  }

  lemma LeadsHere(s: Server)
    ensures Leads(s, s)
  {
    assert Reaches(s, [], s);
  }

  lemma LeadsBy(s: Server, e: Event, t: Server)
    requires Possible(s, e) && Asserted(s, e) && Leads(Apply(s, e), t)
    ensures Leads(s, t)
  {
    hide Possible, Asserted, Apply;
    var es: seq<Event> :| Reaches(Apply(s, e), es, t);
    assert ([e] + es)[1..] == es;
    assert Reaches(s, [e] + es, t);
  }

  /** The connection that newConnection makes, once it is up. */
  function Fresh(s: Server, ioLoop: Loop): Conn
    requires s.nextConnId < N.IDS
  {
    Conn(N.Name(s.name, s.ip, s.nextConnId), ioLoop, Connected, true, 1, 0, 0, Live, 0, false)
  }

  /** The server with one connection more, up and filed. */
  function WithFresh(s: Server, ioLoop: Loop): Server
    requires s.nextConnId < N.IDS
  {
    s.(nextConnId := (s.nextConnId + 1) % N.IDS,
       connections := s.connections[Fresh(s, ioLoop).name := |s.conns|],
       conns := s.conns + [Fresh(s, ioLoop)])
  }

  /** Accepting, and connectEstablished on the loop of the socket, lead to a connection that is up. */
  lemma Opens(s: Server, ioLoop: Loop)
    requires s.nextConnId < N.IDS
    ensures Leads(s, WithFresh(s, ioLoop))
  {
    hide N.Name, Leads;
    var c, t := |s.conns|, WithFresh(s, ioLoop);
    var accepted := Apply(s, Accepts(ioLoop));
    LeadsHere(t);
    if ioLoop == s.base {
      assert accepted == t by { assert accepted.conns == t.conns; }
    } else {
      var runs := Runs(ioLoop, Task.ConnectEstablished(c));
      assert Posted(ioLoop, Task.ConnectEstablished(c)) in accepted.tasks;
      assert Apply(accepted, runs) == t by {
        assert accepted.tasks - multiset{Posted(ioLoop, Task.ConnectEstablished(c))} == s.tasks;
        assert Apply(accepted, runs).conns == t.conns;
      }
      LeadsBy(accepted, runs, t);
    }
    LeadsBy(s, Accepts(ioLoop), t);
  }

  /** The server after connection c has been closed, removed and destroyed. */
  function Without(s: Server, c: ConnId): Server
    requires c < |s.conns|
  {
    var conn := s.conns[c];
    s.(connections := s.connections - {conn.name},
       conns := s.conns[c := conn.(state := Disconnected, reading := false, downs := conn.downs + 1,
                                   closes := conn.closes + 1, phase := Gone)])
  }

  /**
   The peer closes: handleClose on the loop of the connection, its removal on the base
   loop, and connectDestroyed back on the first lead to a server without it.
   */
  lemma Ends(s: Server, c: ConnId)
    requires c < |s.conns| && s.conns[c].reading && s.conns[c].state == Connected
    requires s.conns[c].name in s.connections
    ensures Leads(s, Without(s, c))
  {
    hide Leads;
    var conn, t := s.conns[c], Without(s, c);
    var removes, destroys := Runs(s.base, Task.RemoveConnection(c)), Runs(conn.loop, Task.ConnectDestroyed(c));
    var removed := Erased(Shut(s, c), c);
    assert Apply(removed, destroys) == t by {
      assert removed.tasks - multiset{Posted(conn.loop, Task.ConnectDestroyed(c))} == s.tasks;
      assert Apply(removed, destroys).conns == t.conns;
    }
    LeadsHere(t);
    LeadsBy(removed, destroys, t);
    var closed := Apply(s, ReadFails(c));
    if conn.loop != s.base {
      assert Apply(closed, removes) == removed by {
        assert closed.tasks - multiset{Posted(s.base, Task.RemoveConnection(c))} == s.tasks;
      }
      LeadsBy(closed, removes, t);
    }
    LeadsBy(s, ReadFails(c), t);
  }

  /**
   The whole life of a connection, on any loop: from any sound state, accepting it and
   losing its peer leads through one call up and one call down to where everything but the
   counter is as before.
   */
  lemma WholeLife(s: Server, ioLoop: Loop)
    requires Sound(s) && FreshName(s, Accepts(ioLoop)) && s.nextConnId < N.IDS
    ensures var conn := Conn(N.Name(s.name, s.ip, s.nextConnId), ioLoop, Disconnected, false, 1, 1, 1, Gone, 0, false);
      && Leads(s, WithFresh(s, ioLoop)) && Leads(WithFresh(s, ioLoop), Without(WithFresh(s, ioLoop), |s.conns|))
      && Without(WithFresh(s, ioLoop), |s.conns|) ==
         s.(nextConnId := (s.nextConnId + 1) % N.IDS, conns := s.conns + [conn])
  {
    hide N.Name, Leads, Sound;
    var up := WithFresh(s, ioLoop);
    Opens(s, ioLoop);
    Ends(up, |s.conns|);
    assert up.connections - {Fresh(s, ioLoop).name} == s.connections;
  }

  /** shutdown() on the loop ends the sending state and nothing else. */
  lemma ShutdownOnLoopSets(s: Server, c: ConnId)
    requires c < |s.conns|
    ensures Apply(s, ShutsDown(c)).conns[c] ==
      s.conns[c].(state := if s.conns[c].state == Connected then Disconnecting else s.conns[c].state)
  {
  }

  /** connectDestroyed of a connection that is still up would close it and call down itself. */
  lemma DestroyedIsDown(s: Server, c: ConnId)
    requires c < |s.conns|
    ensures var conn, after := s.conns[c], Destroyed(s, c).conns[c];
      && after.state != Connected && after.downs - conn.downs == (if conn.state == Connected then 1 else 0)
      && (conn.state == Connected ==> after.state == Disconnected)
      && (conn.state != Connected ==> after.state == conn.state)
  {
  }

  /**
   A shutdown() from another thread that has passed its test when the connection closes
   leaves the closed connection kDisconnecting, which its destructor asserts it is not.
   */
  lemma LateShutdownOverwrites(s: Server, c: ConnId) returns (t: Server)
    requires c < |s.conns| && s.conns[c].reading && s.conns[c].state == Connected
    requires s.conns[c].loop == s.base ==> s.conns[c].name in s.connections
    ensures Leads(s, t) && |t.conns| == |s.conns|
    ensures t.conns[c].state == Disconnecting && t.conns[c].overwritten && !t.conns[c].reading
    ensures t.conns[c].downs == s.conns[c].downs + 1
  {
    hide Leads;
    var tested := Apply(s, TestsShutdown(c));
    var closed := Apply(tested, ReadFails(c));
    t := Apply(closed, SetsShutdown(c));
    LeadsHere(t);
    LeadsBy(closed, SetsShutdown(c), t);
    LeadsBy(tested, ReadFails(c), t);
    LeadsBy(s, TestsShutdown(c), t);
  }
}
