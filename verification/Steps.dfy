/**
 * What single actions of the cluster do to its phase and its history, and that nothing the
 * outside world can do is ruled out.
 */
module Steps {
  import opened ServerModel
  import opened ServerInvariant
  import opened ServerEffects
  import opened ClientModel
  import opened Cluster
  import opened SessionInvariant
  import opened ClusterInvariant
  import opened Theorems
  import opened Progress

  // ---------- when the server gives up for want of clients ----------

  /** After a connection is lost the server leaves exactly if it noticed by a hangup and nobody
      else is connected; otherwise it goes on, even without a client. */
  lemma WhenNobodyIsLeft<T, R>(f: T -> R, s: Cluster<T, R>, i: nat, hangup: bool)
    requires ClusterInv(f, s) && Guard(s, Disconnection(i, hangup))
    ensures Enabled(s, Disconnection(i, hangup))
    ensures var e := Apply(f, s, Disconnection(i, hangup));
      && (e.phase == NoWorkersLeft <==> hangup && forall j :: 0 <= j < |s.sessions| && j != i ==> s.sessions[j].Closed?)
      && (e.phase == NoWorkersLeft || e.phase == Running)
      && e.sessions == s.sessions[i := Closed] && e.loop == IDLE
      && Inv(s.server) && Inv(e.server) && i < |s.server.conns| && Gone(s.server, i, e.server)
  {
    hide Inv, AllLinked, Correct, History, AbortSound, Live, LoopSound, Disconnect, Held, Gone;
    AlwaysInBounds(f, s, Disconnection(i, hangup));
    SameLength(f, s);
    OpenIff(f, s, i);
    DisconnectEffect(s.server, i);
    var w := Disconnect(s.server, i);
    CountedClients(w);
    GoneConns(s.server, i, w);
    forall j | 0 <= j < |s.sessions| ensures s.sessions[j].Open? <==> s.server.conns[j].open {
      OpenIff(f, s, j);
    }
  }

  lemma CountedClients<T, R>(v: Server<T, R>)
    requires Inv(v)
    ensures v.numClients == 0 <==> forall j :: 0 <= j < |v.conns| ==> !v.conns[j].open
  {
    NobodyLeft(v.conns);
    hide CellsMatch, Counted, ConnShape;
  }

  lemma GoneConns<T, R>(v: Server<T, R>, i: nat, w: Server<T, R>)
    requires Inv(v) && Inv(w) && i < |v.conns| && Gone(v, i, w)
    ensures OthersSame(v.conns, i, w.conns) && !w.conns[i].open
  {
    hide Inv;
  }

  /** Nothing else makes it leave for that reason. */
  lemma NoOtherWayToLeave<T, R>(f: T -> R, s: Cluster<T, R>, a: Action<T, R>)
    requires Enabled(s, a) && !a.Disconnection?
    ensures Apply(f, s, a).phase != NoWorkersLeft
  {
    hide Receive, SendIter, StartComputation, Settle, AfterNext, NextFrame, Held, Accept;
  }

  // ---------- the outside world is free ----------

  predicate Alive<T, R>(s: Cluster<T, R>, i: nat) {
    i < |s.sessions| && s.sessions[i].Open? && s.sessions[i].alive
  }

  predicate Present<T, R>(s: Cluster<T, R>, i: nat) {
    i < |s.sessions| && s.sessions[i].Open?
  }

  /** While the server runs, these and no other conditions say what can happen next. Between
      handlers any connection may be lost in either way, any frame that has arrived may be read
      and any fresh client may connect; inside a send loop the socket may answer anything; a
      client may die, read what has arrived, and send whenever something waits, at any time. */
  lemma WhatMayHappen<T, R>(f: T -> R, s: Cluster<T, R>, a: Action<T, R>)
    requires ClusterInv(f, s) && s.phase == Running
    ensures a.Connect? ==> (Enabled(s, a) <==> s.loop == IDLE && Fresh(a.newcomer))
    ensures a.ServerReceive? ==> (Enabled(s, a) <==> s.loop == IDLE && Present(s, a.conn) && s.sessions[a.conn].up != [])
    ensures a.Disconnection? ==> (Enabled(s, a) <==> s.loop == IDLE && Present(s, a.conn))
    ensures a.SendTask? ==> (Enabled(s, a) <==> s.loop >= 0)
    ensures a.Finish? ==> (Enabled(s, a) <==> s.loop == IDLE && s.server.numCompleted == |s.server.tasks|)
    ensures a.ClientReceive? ==> (Enabled(s, a) <==> Alive(s, a.conn) && s.sessions[a.conn].down != [])
    ensures a.ClientSend? ==> (Enabled(s, a) <==> Alive(s, a.conn) && HasPending(s.sessions[a.conn].client))
    ensures a.ClientDies? ==> (Enabled(s, a) <==> Alive(s, a.conn))
  {
    hide Inv, AllLinked, Correct, History, AbortSound, LoopSound, HasPending, CanIterate, Live, Fresh;
    if Guard(s, a) {
      AlwaysInBounds(f, s, a);
    }
    if a.ClientSend? && Present(s, a.conn) {
      OpenIff(f, s, a.conn);
      SendsWhenPending(f, s.server.tasks, s.server.conns[a.conn], s.sessions[a.conn]);
    }
  }

  lemma SendsWhenPending<T, R>(f: T -> R, tasks: seq<T>, c: Conn, x: Session<T, R>)
    requires Live(f, tasks, c, x)
    ensures x.Open? && (x.client.armed <==> HasPending(x.client))
  {
    hide Located, Tokens, Payloads, HasPending;
  }

  /** A thread may finish while its entry is busy with nothing signalled or waiting, and is
      noticed once it has; the server turns to a connection that is armed and has asked. */
  lemma WhatMayProceed<T, R>(f: T -> R, s: Cluster<T, R>, i: nat, k: nat)
    requires ClusterInv(f, s) && s.phase == Running && Present(s, i)
    ensures Enabled(s, Writable(i)) <==>
              s.loop == IDLE && i < |s.server.conns| && s.server.conns[i].armed && s.server.conns[i].requested > 0
    ensures Enabled(s, ClientReady(i, k)) <==>
              Alive(s, i) && k < |s.sessions[i].client.slots| && s.sessions[i].client.slots[k].signalled
    ensures Enabled(s, ClientCompute(i, k)) <==>
              Alive(s, i) && k < |s.sessions[i].client.slots|
              && var x := s.sessions[i].client.slots[k]; !x.empty && !x.signalled && !x.waiting
  {
    hide ClusterInv;
    SameLength(f, s);
  }

  /** A client that dies keeps its connection until the server notices; nothing else changes. */
  lemma DyingIsSilent<T, R>(f: T -> R, s: Cluster<T, R>, i: nat)
    requires Enabled(s, ClientDies(i))
    ensures var e := Apply(f, s, ClientDies(i));
      && e == s.(sessions := e.sessions) && |e.sessions| == |s.sessions|
      && (forall j :: 0 <= j < |s.sessions| && j != i ==> e.sessions[j] == s.sessions[j])
      && e.sessions[i] == s.sessions[i].(alive := false)
      && forall a: Action<T, R> :: ClientAction(a) && a.conn == i ==> !Enabled(e, a)
  {
  }

  // ---------- history ----------

  /** The history counts what it says: a task handed out whenever the send loop takes a new one,
      and a disconnect whenever a connection is closed. */
  lemma HistoryExact<T, R>(f: T -> R, s: Cluster<T, R>, a: Action<T, R>)
    requires ClusterInv(f, s) && Enabled(s, a)
    ensures |s.sessions| == |s.server.conns| && (a.SendTask? ==> 0 <= s.loop < |s.server.conns|)
    ensures var e := Apply(f, s, a);
      && e.handedOut == s.handedOut
                        + (if a.SendTask? && e.phase == Running && s.server.conns[s.loop].sending == -1 then 1 else 0)
      && |e.sessions| == |s.sessions|
      && e.disconnects == s.disconnects
                          + (if exists i :: 0 <= i < |s.sessions| && s.sessions[i].Open? && e.sessions[i].Closed? then 1 else 0)
  {
    hide Inv, AllLinked, Correct, History, AbortSound, Live, Held, SendIter, Disconnect, Push, Settle, AfterNext, NextFrame, CanIterate;
    SameLength(f, s);
    var e := Apply(f, s, a);
    if a.SendTask? {
      LoopOpen(s.server.conns, s.loop);
      OpenIff(f, s, s.loop);
      assert e.sessions[s.loop].Closed? ==> s.sessions[s.loop].Open?;
    } else if a.ServerReceive? {
      ReceivedFrame(f, s, a.conn);
    } else if a.Disconnection? {
      assert e.sessions[a.conn].Closed? && s.sessions[a.conn].Open?;
    } else if a.Connect? && Accept(s.server).Accepted? {
      OpenIff(f, s, Accept(s.server).conn);
    }
  }
}
