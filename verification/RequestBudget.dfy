/**
 * Why a task list of sixteen cells is enough: the cells in use and the requests still open
 * always add up to the number of requests the connection has received since it was accepted.
 */
module RequestBudget {
  import opened Config
  import opened ServerModel
  import opened ServerInvariant
  import opened Dispatch
  import opened Cluster
  import opened SessionInvariant
  import opened ClusterInvariant
  import opened Theorems

  // ---------- the server's side of it, whatever the peer sends ----------

  /** A connection starts with nothing owed. */
  lemma AcceptDemand<T, R>(v: Server<T, R>)
    requires Inv(v) && Accept(v).Accepted?
    ensures var w, i := Accept(v).server, Accept(v).conn;
      i < |v.conns| && OthersSame(v.conns, i, w.conns) && w.conns[i].open && Demand(w.conns[i]) == 0
  {
    ClosedBlank(v, Accept(v).conn);
    hide Inv;
  }

  /** Of all frames a peer can send, exactly a request raises what is owed to it, by one. */
  lemma ReceiveDemand<T, R>(v: Server<T, R>, i: nat, u: Frame<R>)
    requires i < |v.conns| && v.numClients > 0 && |v.rets| == |v.status|
    requires u.cmd == CMD_RESULT ==> u.id < |v.rets|
    ensures u.cmd == CMD_REQUEST_FOR_DATA ==> Receive(v, i, u).Handled?
    ensures Receive(v, i, u).Handled? ==>
              var w := Receive(v, i, u).server;
              && OthersSame(v.conns, i, w.conns)
              && w.conns[i].open == v.conns[i].open
              && Demand(w.conns[i]) == Demand(v.conns[i]) + (if u.cmd == CMD_REQUEST_FOR_DATA then 1 else 0)
    ensures Receive(v, i, u).Dropped? ==>
              var w := Receive(v, i, u).server; OthersSame(v.conns, i, w.conns) && !w.conns[i].open
  {
    hide Held, IndexOf, Returned, LowerHint;
    if u.cmd == CMD_RESULT {
      var k := IndexOf(v.conns[i].cells, u.id);
      if k < |v.conns[i].cells| {
        ClearedCell(v.conns[i].cells, k);
      }
    }
  }

  lemma ClearedCell(cells: seq<int>, k: nat)
    requires k < |cells| && cells[k] != NO_TASK
    ensures |Held(cells[k := NO_TASK])| == |Held(cells)| - 1
  {
    hide Held;
    HeldUpdate(cells, k, NO_TASK);
  }

  /** Sending, or failing to send, moves what is owed between requests and cells. */
  lemma SendDemand<T, R>(v: Server<T, R>, i: nat, o: SendOutcome)
    requires Inv(v) && i < |v.conns| && v.conns[i].open && v.conns[i].requested > 0 && CanIterate(v, i)
    ensures var r := SendIter(v, i, o);
      && (r.IterSent? || r.IterRetry? ==>
            OthersSame(v.conns, i, r.server.conns) && Demand(r.server.conns[i]) == Demand(v.conns[i]))
      && (r.IterDropped? ==> OthersSame(v.conns, i, r.server.conns) && !r.server.conns[i].open)
      && (r.IterNoRoom? ==> Demand(v.conns[i]) > 16)
  {
    hide SendIter, Inv, Available, Demand;
    IterAvailable(v, i, o);
    SendOthers(v, i, o);
  }

  lemma SendOthers<T, R>(v: Server<T, R>, i: nat, o: SendOutcome)
    requires CanIterate(v, i)
    ensures var r := SendIter(v, i, o);
      && (r.IterSent? || r.IterRetry? ==> OthersSame(v.conns, i, r.server.conns))
      && (r.IterSent? ==> !r.server.conns[i].armed)
      && (r.IterDropped? ==> OthersSame(v.conns, i, r.server.conns) && !r.server.conns[i].open)
  {
    hide LeastFrom, IndexOf, LowerHint, Returned, Held;
  }

  // ---------- counting requests along a run ----------

  /** Requests received on connection i since it was last accepted, if there were n before a. */
  function CountedAfter<T, R>(s: Cluster<T, R>, a: Action<T, R>, i: nat, n: nat): nat
    requires Enabled(s, a)
  {
    match a
    case Connect(_) => if Accept(s.server).Accepted? && Accept(s.server).conn == i then 0 else n
    case ServerReceive(j) => if j == i && s.sessions[j].up[0].cmd == CMD_REQUEST_FOR_DATA then n + 1 else n
    case _ => n
  }

  /** The same after a whole run. */
  function RequestsReceived<T, R>(f: T -> R, s: Cluster<T, R>, acts: seq<Action<T, R>>, i: nat, n: nat): nat
    requires IsRun(f, s, acts)
    decreases |acts|
  {
    if acts == [] then n
    else RequestsReceived(f, Apply(f, s, acts[0]), acts[1..], i, CountedAfter(s, acts[0], i, n))
  }

  ghost predicate Budget<T, R>(s: Cluster<T, R>, i: nat, n: nat) {
    && (i < |s.server.conns| && s.server.conns[i].open ==> Demand(s.server.conns[i]) == n)
    && (s.phase == Aborted(NoRoomForTask) ==> s.loop >= 0 && (s.loop == i ==> n > MAX_TASKS_PER_CLIENT))
  }

  lemma BudgetStep<T, R>(f: T -> R, s: Cluster<T, R>, a: Action<T, R>, i: nat, n: nat)
    requires ClusterInv(f, s) && Enabled(s, a) && Budget(s, i, n)
    ensures Budget(Apply(f, s, a), i, CountedAfter(s, a, i, n))
  {
    hide Live, AllLinked, Correct, History, AbortSound, Demand, Inv, Receive, SendIter, CanIterate;
    SameLength(f, s);
    match a
    case Connect(_) =>
      if Accept(s.server).Accepted? {
        AcceptDemand(s.server);
      }
    case ServerReceive(j) => ReceiveDemand(s.server, j, s.sessions[j].up[0]);
    case SendTask(o) =>
      LoopOpen(s.server.conns, s.loop);
      SendDemand(s.server, s.loop, o);
    case Disconnection(_, _) =>
    case Writable(_) =>
    case Finish =>
    case _ => ClientStepKeeps(f, s, a);
  }

  lemma {:induction false} BudgetKept<T, R>(f: T -> R, s: Cluster<T, R>, acts: seq<Action<T, R>>, i: nat, n: nat)
    requires ClusterInv(f, s) && IsRun(f, s, acts) && Budget(s, i, n)
    ensures Budget(After(f, s, acts), i, RequestsReceived(f, s, acts, i, n))
    decreases |acts|
  {
    hide ClusterInv, Budget, Apply, Enabled, CountedAfter;
    if acts != [] {
      StepKeeps(f, s, acts[0]);
      BudgetStep(f, s, acts[0], i, n);
      BudgetKept(f, Apply(f, s, acts[0]), acts[1..], i, CountedAfter(s, acts[0], i, n));
    }
  }

  // ---------- what it means for a run ----------

  /** Requests that have not reached the server yet. */
  ghost function RequestsInFlight<R>(up: seq<Frame<R>>): int {
    |up| - |Held(ResultIds(up))|
  }

  /** In every reachable state the occupied cells and the open requests of a connection, not
      counting the task in hand twice, are the requests received since it was accepted; which
      for a client that follows its loop are its threads less the requests still to come. */
  lemma SlotBudget<T, R>(f: T -> R, tasks: seq<T>, rets: seq<R>, maxClients: nat,
                         acts: seq<Action<T, R>>, s: Cluster<T, R>, i: nat)
    requires Reached(f, tasks, rets, maxClients, acts, s) && i < |s.sessions| && s.sessions[i].Open?
    ensures i < |s.server.conns|
    ensures var c, x := s.server.conns[i], s.sessions[i];
      var received := RequestsReceived(f, InitCluster(tasks, rets, maxClients), acts, i, 0);
      && |Held(c.cells)| + c.requested - (if c.sending == NO_TASK then 0 else 1) == received
      && received == |x.client.slots| - x.client.initial - RequestsInFlight(x.up)
      && 0 <= RequestsInFlight(x.up)
  {
    hide ClusterInv, Live, Held, IsRun, After, RequestsReceived;
    ReachedInv(f, tasks, rets, maxClients, acts, s);
    InitClusterInv(f, tasks, rets, maxClients);
    BudgetKept(f, InitCluster(tasks, rets, maxClients), acts, i, 0);
    OpenIff(f, s, i);
    CellBudget(f, s.server.tasks, s.server.conns[i], s.sessions[i]);
    SendingShape(f, s.server.tasks, s.server.conns[i], s.sessions[i]);
  }

  lemma SendingShape<T, R>(f: T -> R, tasks: seq<T>, c: Conn, x: Session<T, R>)
    requires Live(f, tasks, c, x)
    ensures c.sending == NO_TASK || 0 <= c.sending < |c.cells|
  {
  }

  /** The "no room for it" exit needs a connection from which more than sixteen requests came. */
  lemma NoRoomNeedsManyRequests<T, R>(f: T -> R, tasks: seq<T>, rets: seq<R>, maxClients: nat,
                                      acts: seq<Action<T, R>>, s: Cluster<T, R>)
    requires Reached(f, tasks, rets, maxClients, acts, s) && s.phase == Aborted(NoRoomForTask)
    ensures 0 <= s.loop < |s.sessions| && s.sessions[s.loop].Open?
    ensures RequestsReceived(f, InitCluster(tasks, rets, maxClients), acts, s.loop, 0) > 16
  {
    hide ClusterInv, IsRun, After, RequestsReceived;
    ReachedInv(f, tasks, rets, maxClients, acts, s);
    InitClusterInv(f, tasks, rets, maxClients);
    BudgetKept(f, InitCluster(tasks, rets, maxClients), acts, 0, 0);
    BudgetKept(f, InitCluster(tasks, rets, maxClients), acts, s.loop, 0);
    InLoop(f, s);
  }

  lemma InLoop<T, R>(f: T -> R, s: Cluster<T, R>)
    requires ClusterInv(f, s) && s.loop >= 0
    ensures s.loop < |s.sessions| && s.sessions[s.loop].Open?
  {
    hide Inv, Correct, History, AbortSound, Live;
    LoopOpen(s.server.conns, s.loop);
    SameLength(f, s);
    OpenIff(f, s, s.loop);
  }
}
