/**
 * What each table operation leaves behind, field by field and in numbers, without the
 * operation's own searches: which task and cell it picks, what it changes, what it keeps.
 */
module ServerEffects {
  import opened Config
  import opened ServerModel
  import opened ServerInvariant
  import opened Pool
  import Framing

  // ---------- one task ----------

  /** Taking a task: it is the least pending one of all, it goes into the first of the sixteen
      cells that holds -1, and the search resumes behind it next time. */
  lemma GetTaskEffect<T, R>(s: Server<T, R>, i: nat)
    requires Inv(s) && i < |s.conns| && s.conns[i].open && GetTask(s, i).Got?
    ensures var w, k := GetTask(s, i).server, GetTask(s, i).cell;
      && OthersSame(s.conns, i, w.conns) && k < |w.conns[i].cells| == 16
      && var t := w.conns[i].cells[k];
      && 0 <= t < |s.status| && s.status[t] == NotResolved && (forall u :: 0 <= u < t ==> s.status[u] != NotResolved)
      && s.conns[i].cells[k] == -1 && (forall j :: 0 <= j < k ==> s.conns[i].cells[j] != -1)
      && w == s.(status := s.status[t := Resolving], numNotResolved := s.numNotResolved - 1, hint := t + 1, conns := w.conns)
      && w.conns[i] == s.conns[i].(cells := s.conns[i].cells[k := t])
  {
    hide AllHeld, Held, CellsMatch, Counted, OpenCount, LeastFrom;
    HintedScanIsFullScan(s);
  }

  /** With all sixteen cells in use the task is marked all the same before the server exits. */
  lemma NoRoomEffect<T, R>(s: Server<T, R>, i: nat)
    requires Inv(s) && i < |s.conns| && s.conns[i].open && GetTask(s, i).NoRoom?
    ensures |s.conns[i].cells| == 16 && forall k :: 0 <= k < 16 ==> s.conns[i].cells[k] != -1
    ensures exists t: nat ::
              && t < |s.status| && s.status[t] == NotResolved && (forall u :: 0 <= u < t ==> s.status[u] != NotResolved)
              && GetTask(s, i).server == s.(status := s.status[t := Resolving], numNotResolved := s.numNotResolved - 1, hint := t + 1)
  {
    hide AllHeld, Held, CellsMatch, Counted, OpenCount, LeastFrom;
    HintedScanIsFullScan(s);
    assert s.status[LeastFrom(s.status, s.hint)] == NotResolved;
  }

  /** A result: it is copied in any case; if a cell holds the task, that cell is emptied and the
      task is completed. */
  lemma PushEffect<T, R>(s: Server<T, R>, i: nat, t: nat, ret: R)
    requires Inv(s) && i < |s.conns| && t < |s.rets|
    ensures Push(s, i, t, ret).Pushed? <==> t as int in s.conns[i].cells
    ensures Push(s, i, t, ret).UnknownTask? ==> Push(s, i, t, ret).server == s.(rets := s.rets[t := ret])
    ensures Push(s, i, t, ret).Pushed? ==>
              var w := Push(s, i, t, ret).server;
              && OthersSame(s.conns, i, w.conns)
              && w == s.(rets := s.rets[t := ret], status := s.status[t := Completed],
                         numCompleted := s.numCompleted + 1, conns := w.conns)
              && exists k :: 0 <= k < |s.conns[i].cells| && s.conns[i].cells[k] == t
                             && w.conns[i] == s.conns[i].(cells := s.conns[i].cells[k := -1])
  {
    hide AllHeld, Held, CellsMatch, Counted, OpenCount;
    if Push(s, i, t, ret).Pushed? {
      var k := IndexOf(s.conns[i].cells, t);
      assert s.conns[i].cells[k] == t;
    }
  }

  // ---------- one connection ----------

  /** Accepting: the first cell not in use becomes a connection with nothing asked, nothing in
      hand, an empty list and write events armed; accepting is paused when that was the last. */
  lemma AcceptEffect<T, R>(s: Server<T, R>)
    requires Inv(s)
    ensures Accept(s).TableFull? <==> forall j :: 0 <= j < |s.conns| ==> s.conns[j].open
    ensures Accept(s).Accepted? ==>
              var w, i := Accept(s).server, Accept(s).conn;
              && OthersSame(s.conns, i, w.conns) && i < |s.conns|
              && !s.conns[i].open && (forall j :: 0 <= j < i ==> s.conns[j].open)
              && w == s.(conns := w.conns, numClients := s.numClients + 1, listening := s.numClients + 1 < |s.conns|)
              && w.conns[i].open && w.conns[i].requested == 0 && w.conns[i].sending == -1 && w.conns[i].armed
              && |w.conns[i].cells| == 16 && (forall k :: 0 <= k < 16 ==> w.conns[i].cells[k] == -1)
  {
    hide AllHeld, CellsMatch, Counted;
    OpenCountBound(s.conns);
    if Accept(s).Accepted? {
      OpenCountUpdate(s.conns, Accept(s).conn, s.conns[Accept(s).conn]);
    }
  }

  /** Deleting: the cell is free, the client counted off, accepting is on again. */
  lemma DeleteEffect<T, R>(s: Server<T, R>, i: nat)
    requires Inv(s) && i < |s.conns| && s.conns[i].open && s.numClients > 0
    ensures var w := Delete(s, i);
      && OthersSame(s.conns, i, w.conns)
      && w == s.(conns := w.conns, numClients := s.numClients - 1, listening := true)
      && w.conns[i] == s.conns[i].(open := false, armed := false)
  {
    hide AllHeld, CellsMatch, Counted;
    OpenCountUpdate(s.conns, i, s.conns[i]);
  }

  /** A dead connection: its tasks are pending again, its cell is free, one client less. */
  ghost predicate Gone<T, R>(s: Server<T, R>, i: nat, w: Server<T, R>)
    requires Inv(s) && Inv(w) && i < |s.conns|
  {
    && PoolOf(w) == Release(PoolOf(s), i) && w.rets == s.rets && w.tasks == s.tasks
    && OthersSame(s.conns, i, w.conns) && !w.conns[i].open
    && w.numClients == s.numClients - 1 && w.listening
  }

  lemma DisconnectEffect<T, R>(s: Server<T, R>, i: nat)
    requires Inv(s) && i < |s.conns| && s.conns[i].open && s.numClients > 0
    ensures Inv(Disconnect(s, i)) && Gone(s, i, Disconnect(s, i))
  {
    hide AllHeld, Held, CellsMatch, Counted, PoolOf, Release, ConnShape;
    DisconnectSimulates(s, i);
    OpenCountUpdate(s.conns, i, s.conns[i]);
  }

  // ---------- the answers of a read ----------

  /** One byte of command decides what the server does with what it read. 0: the connection is
      gone. 1: nothing was complete, and nothing changes. 2: one more request, which arms the
      connection if tasks are pending. 3: the result is taken and counts as a request, or, when
      the connection does not hold that task, the server stops. Any other byte stops it. */
  lemma ReadAnswers<T, R>(s: Server<T, R>, i: nat, u: Frame<R>)
    requires Inv(s) && i < |s.conns| && s.conns[i].open && s.numClients > 0
    requires u.cmd == 3 ==> u.id < |s.rets|
    ensures u.cmd == 0 ==>
              var r := Receive(s, i, u); r.Dropped? && Inv(r.server) && Gone(s, i, r.server)
    ensures u.cmd == 1 ==> Receive(s, i, u) == Handled(s)
    ensures u.cmd == 2 ==> Receive(s, i, u).Handled? && OneMoreRequest(s, i, Receive(s, i, u).server)
    ensures u.cmd == 3 && u.id as int in s.conns[i].cells ==>
              Receive(s, i, u).Handled? && Push(s, i, u.id, u.payload).Pushed?
              && OneMoreRequest(Push(s, i, u.id, u.payload).server, i, Receive(s, i, u).server)
    ensures u.cmd == 3 && u.id as int !in s.conns[i].cells ==> Receive(s, i, u).Unknown?
    ensures u.cmd > 3 ==> Receive(s, i, u).BadCommand?
  {
    hide AllHeld, Held, CellsMatch, Counted, OpenCount, PoolOf, Release, ConnShape, Gone, Disconnect;
    if u.cmd == 0 {
      DisconnectEffect(s, i);
    } else if u.cmd == 3 {
      PushEffect(s, i, u.id, u.payload);
    }
  }

  /** The request is counted, and arms the connection while tasks are pending. */
  ghost predicate OneMoreRequest<T, R>(s: Server<T, R>, i: nat, w: Server<T, R>)
    requires i < |s.conns|
  {
    var c := s.conns[i];
    w == s.(conns := s.conns[i := c.(requested := c.requested + 1, armed := c.armed || s.numNotResolved != 0)])
  }

  /** The header a read leaves behind for the receive switch. */
  function Header(r: Framing.ReadResult, payload: Framing.Bytes): Frame<Framing.Bytes>
    requires !r.Exit?
  {
    match r
    case Lost => Frame(ERR_CONN_BROKEN, NO_TASK_ID, payload)
    case NotYet => Frame(ERR_NOT_READY, NO_TASK_ID, payload)
    case Complete(cmd, id) => Frame(cmd, id, payload)
  }

  /** A read that would block or is partial changes nothing; one that finds the peer gone returns
      exactly this connection's tasks and frees its cell; a complete frame is handled as such. */
  lemma ReadOutcomes<T>(s: Server<T, Framing.Bytes>, i: nat, r: Framing.ReadResult, payload: Framing.Bytes)
    requires Inv(s) && i < |s.conns| && s.conns[i].open && s.numClients > 0 && !r.Exit?
    requires r.Complete? && r.cmd == 3 ==> r.id < |s.rets|
    ensures r.NotYet? ==> Receive(s, i, Header(r, payload)) == Handled(s)
    ensures r.Lost? ==>
              var w := Receive(s, i, Header(r, payload)); w.Dropped? && Inv(w.server) && Gone(s, i, w.server)
    ensures r.Complete? ==> Header(r, payload) == Frame(r.cmd, r.id, payload)
  {
    hide Inv, Receive, Gone;
    ReadAnswers(s, i, Header(r, payload));
  }
}
