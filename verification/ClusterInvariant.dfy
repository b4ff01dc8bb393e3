/**
 * The global invariant of the cluster, and the proof that every action keeps it.
 */
module ClusterInvariant {
  import opened Config
  import opened ServerModel
  import opened ServerInvariant
  import opened ClientModel
  import opened Cluster
  import opened SessionInvariant

  // ---------- the invariant ----------

  ghost predicate Linked<T, R>(f: T -> R, tasks: seq<T>, c: Conn, x: Session<T, R>) {
    (c.open <==> x.Open?) && (x.Open? ==> Live(f, tasks, c, x))
  }

  ghost predicate AllLinked<T, R>(f: T -> R, tasks: seq<T>, conns: seq<Conn>, sessions: seq<Session<T, R>>) {
    && |sessions| == |conns|
    && forall i :: 0 <= i < |conns| ==> Linked(f, tasks, conns[i], sessions[i])
  }

  /** Every finished task has the value the computation assigns to it. */
  ghost predicate Correct<T, R>(f: T -> R, v: Server<T, R>) {
    && |v.rets| == |v.status| == |v.tasks|
    && forall t :: 0 <= t < |v.status| && v.status[t] == Completed ==> v.rets[t] == f(v.tasks[t])
  }

  /** A task is in hand only for the connection whose send loop is running. */
  ghost predicate LoopSound(conns: seq<Conn>, loop: int) {
    && IDLE <= loop < |conns|
    && (loop >= 0 ==> conns[loop].open && conns[loop].requested > 0)
    && (forall i :: 0 <= i < |conns| && i != loop && conns[i].open ==> conns[i].sending == NO_TASK)
  }

  /** Assignments so far are what left the pool, and drops are bounded by the disconnects. */
  ghost predicate History<T, R>(s: Cluster<T, R>) {
    && s.handedOut + s.server.numNotResolved == |s.server.tasks| + s.returned
    && s.returned <= MAX_TASKS_PER_CLIENT * s.disconnects
  }

  /** Why the server may have exited: two of the five checks can never fire. */
  ghost predicate AbortSound<T, R>(s: Cluster<T, R>) {
    match s.phase
    case Running => true
    case NoWorkersLeft => s.server.numClients == 0
    case Finished => s.server.numCompleted == |s.server.tasks|
    case Aborted(GreedyClient) => s.server.numNotResolved == 0
    case Aborted(NoRoomForTask) =>
      exists i :: 0 <= i < |s.sessions| && s.sessions[i].Open? && |s.sessions[i].client.slots| > MAX_TASKS_PER_CLIENT
    case Aborted(NoFreeConnection) => s.server.numClients == |s.server.conns|
    case Aborted(_) => false
  }

  ghost predicate ClusterInv<T, R>(f: T -> R, s: Cluster<T, R>) {
    && Inv(s.server)
    && AllLinked(f, s.server.tasks, s.server.conns, s.sessions)
    && Correct(f, s.server)
    && LoopSound(s.server.conns, s.loop)
    && History(s)
    && AbortSound(s)
  }

  /** Tasks never change; a finished task stays finished and keeps its result. */
  ghost predicate Extends<T, R>(v: Server<T, R>, w: Server<T, R>) {
    && w.tasks == v.tasks && |w.rets| == |v.rets| && |w.status| == |v.status| == |v.rets|
    && |w.conns| == |v.conns|
    && forall t :: 0 <= t < |v.status| && v.status[t] == Completed ==> w.status[t] == Completed && w.rets[t] == v.rets[t]
  }

  // ---------- initial state ----------

  lemma InitClusterInv<T, R>(f: T -> R, tasks: seq<T>, rets: seq<R>, maxClients: nat)
    requires |rets| == |tasks| && maxClients > 0
    ensures ClusterInv(f, InitCluster(tasks, rets, maxClients))
  {
    InitInv(tasks, rets, maxClients);
  }

  // ---------- pieces of the proof ----------

  lemma LinkedAfter<T, R>(f: T -> R, tasks: seq<T>, conns: seq<Conn>, sessions: seq<Session<T, R>>,
                          i: nat, c: Conn, x: Session<T, R>)
    requires AllLinked(f, tasks, conns, sessions) && i < |conns| && Linked(f, tasks, c, x)
    ensures AllLinked(f, tasks, conns[i := c], sessions[i := x])
  {
    hide Linked;
  }

  /** One connection as the invariant sees it. */
  lemma OpenIff<T, R>(f: T -> R, s: Cluster<T, R>, i: nat)
    requires ClusterInv(f, s) && i < |s.sessions|
    ensures |s.sessions| == |s.server.conns|
    ensures s.sessions[i].Open? <==> s.server.conns[i].open
    ensures s.sessions[i].Open? ==> Live(f, s.server.tasks, s.server.conns[i], s.sessions[i]) && s.server.numClients > 0
  {
    hide Live, History, AbortSound, Correct;
    assert Linked(f, s.server.tasks, s.server.conns[i], s.sessions[i]);
    OpenCountUpdate(s.server.conns, i, s.server.conns[i]);
  }

  /** A step that only concerns one client and its streams. */
  lemma SessionStep<T, R>(f: T -> R, s: Cluster<T, R>, i: nat, x: Session<T, R>)
    requires ClusterInv(f, s) && s.phase == Running && i < |s.sessions| && s.sessions[i].Open?
    requires Live(f, s.server.tasks, s.server.conns[i], x)
    ensures ClusterInv(f, s.(sessions := s.sessions[i := x]))
  {
    hide Inv, AllLinked, Correct, Live, LoopSound;
    OpenIff(f, s, i);
    assert Linked(f, s.server.tasks, s.server.conns[i], x) by { assert x.Open? by { LiveOpen(f, s.server.tasks, s.server.conns[i], x); } }
    LinkedAfter(f, s.server.tasks, s.server.conns, s.sessions, i, s.server.conns[i], x);
    assert s.server.conns[i := s.server.conns[i]] == s.server.conns;
  }

  lemma LiveOpen<T, R>(f: T -> R, tasks: seq<T>, c: Conn, x: Session<T, R>)
    requires Live(f, tasks, c, x)
    ensures x.Open?
  {
  }

  lemma ClosedBlank<T, R>(v: Server<T, R>, i: nat)
    requires Inv(v) && i < |v.conns| && !v.conns[i].open
    ensures Held(v.conns[i].cells) == multiset{}
  {
    assert v.conns[i].cells == seq(|v.conns[i].cells|, _ => NO_TASK);
    HeldBlank(|v.conns[i].cells|);
  }

  lemma SameResults<T, R>(f: T -> R, v: Server<T, R>, w: Server<T, R>)
    requires Correct(f, v) && w.tasks == v.tasks && w.rets == v.rets && w.status == v.status && |w.conns| == |v.conns|
    ensures Correct(f, w) && Extends(v, w)
  {
  }

  /** A result that equals the computation's value keeps all results correct. */
  lemma PushResults<T, R>(f: T -> R, v: Server<T, R>, w: Server<T, R>, t: nat, ret: R)
    requires Correct(f, v) && t < |v.status| && v.status[t] == Resolving && ret == f(v.tasks[t])
    requires w.tasks == v.tasks && w.rets == v.rets[t := ret] && w.status == v.status[t := Completed]
    requires |w.conns| == |v.conns|
    ensures Correct(f, w) && Extends(v, w)
  {
  }

  lemma DisconnectResults<T, R>(f: T -> R, v: Server<T, R>, i: nat)
    requires Inv(v) && Correct(f, v) && i < |v.conns| && v.numClients > 0
    ensures Correct(f, Disconnect(v, i)) && Extends(v, Disconnect(v, i))
  {
    CellsDistinct(v, i);
    hide Inv;
    forall t | 0 <= t < |v.status| && v.status[t] == Completed ensures t !in v.conns[i].cells {
      assert forall k :: 0 <= k < |v.conns[i].cells| && v.conns[i].cells[k] >= 0 ==>
               v.status[v.conns[i].cells[k]] == Resolving;
    }
  }

  lemma TakeResults<T, R>(f: T -> R, v: Server<T, R>, i: nat)
    requires Correct(f, v) && CanIterate(v, i) && TakeTask(v, i).Got?
    ensures Correct(f, TakeTask(v, i).server) && Extends(v, TakeTask(v, i).server)
  {
  }

  lemma LoopSoundAfter(conns: seq<Conn>, loop: int, i: nat, c: Conn)
    requires LoopSound(conns, loop) && i < |conns|
    requires c.open && i != loop ==> c.sending == NO_TASK
    requires loop == i ==> c.open && c.requested > 0
    requires loop >= 0 ==> loop == i
    ensures LoopSound(conns[i := c], loop)
  {
  }

  // ---------- Connect ----------

  lemma ConnectKeeps<T, R>(f: T -> R, s: Cluster<T, R>, c: Client<T, R>)
    requires ClusterInv(f, s) && Enabled(s, Connect(c))
    ensures ClusterInv(f, ApplyConnect(s, c)) && Extends(s.server, ApplyConnect(s, c).server)
  {
    hide Inv, AllLinked, Correct, Live, LoopSound, Held, Extends;
    AcceptInv(s.server);
    SameResults(f, s.server, s.server);
    if Accept(s.server).Accepted? {
      var w, i := Accept(s.server).server, Accept(s.server).conn;
      ClosedBlank(s.server, i);
      ConnectLive(f, s.server.tasks, w.conns[i], c);
      LinkedAfter(f, s.server.tasks, s.server.conns, s.sessions, i, w.conns[i], Open(c, true, [], []));
      SameResults(f, s.server, w);
      LoopSoundAfter(s.server.conns, s.loop, i, w.conns[i]);
    }
  }

  // ---------- ServerReceive ----------

  lemma ReceiveKeeps<T, R>(f: T -> R, s: Cluster<T, R>, i: nat)
    requires ClusterInv(f, s) && Enabled(s, ServerReceive(i))
    ensures ClusterInv(f, ApplyReceive(s, i)) && Extends(s.server, ApplyReceive(s, i).server)
  {
    OpenIff(f, s, i);
    var u := s.sessions[i].up[0];
    assert UpFrame(f, s.server.tasks, u);
    hide Inv, AllLinked, Correct, Live, LoopSound, Held, Extends, ApplyReceive, ClusterInv;
    if u.cmd == CMD_REQUEST_FOR_DATA {
      RequestKeeps(f, s, i);
    } else {
      ResultKeeps(f, s, i);
    }
  }

  lemma RequestKeeps<T, R>(f: T -> R, s: Cluster<T, R>, i: nat)
    requires ClusterInv(f, s) && Enabled(s, ServerReceive(i)) && s.sessions[i].up[0].cmd == CMD_REQUEST_FOR_DATA
    ensures ClusterInv(f, ApplyReceive(s, i)) && Extends(s.server, ApplyReceive(s, i).server)
  {
    hide Inv, AllLinked, Correct, Live, LoopSound, Held, Extends;
    OpenIff(f, s, i);
    var x := s.sessions[i];
    var w := Request(s.server, i);
    ReceiveInv(s.server, i, x.up[0]);
    RequestLive(f, s.server.tasks, s.server.conns[i], x, w.conns[i]);
    LinkedAfter(f, s.server.tasks, s.server.conns, s.sessions, i, w.conns[i], x.(up := x.up[1..]));
    SameResults(f, s.server, w);
    IdleSending(s.server.conns, i);
    LoopSoundAfter(s.server.conns, s.loop, i, w.conns[i]);
  }

  lemma IdleSending(conns: seq<Conn>, i: nat)
    requires LoopSound(conns, IDLE) && i < |conns| && conns[i].open
    ensures conns[i].sending == NO_TASK
  {
  }

  lemma ResultKeeps<T, R>(f: T -> R, s: Cluster<T, R>, i: nat)
    requires ClusterInv(f, s) && Enabled(s, ServerReceive(i)) && s.sessions[i].up[0].cmd == CMD_RESULT
    ensures ClusterInv(f, ApplyReceive(s, i)) && Extends(s.server, ApplyReceive(s, i).server)
  {
    hide Inv, AllLinked, Correct, Live, LoopSound, Held, Extends;
    OpenIff(f, s, i);
    IdleSending(s.server.conns, i);
    var x := s.sessions[i];
    var u := x.up[0];
    var c := s.server.conns[i];
    ResultIsExpected(f, s.server.tasks, c, x);
    PushOutcome(s.server, i, u.id, u.payload);
    HeldIsResolving(s.server, i, u.id);
    ReceiveInv(s.server, i, u);
    var k := IndexOf(c.cells, u.id);
    var w := Receive(s.server, i, u).server;
    assert w.conns == s.server.conns[i := w.conns[i]];
    ResultLive(f, s.server.tasks, c, x, k, w.conns[i]);
    LinkedAfter(f, s.server.tasks, s.server.conns, s.sessions, i, w.conns[i], x.(up := x.up[1..]));
    PushResults(f, s.server, w, u.id, u.payload);
    LoopSoundAfter(s.server.conns, s.loop, i, w.conns[i]);
  }

  // ---------- Disconnection ----------

  lemma DropSessionKeeps<T, R>(f: T -> R, s: Cluster<T, R>, i: nat)
    requires ClusterInv(f, s) && s.phase == Running && i < |s.sessions| && s.sessions[i].Open?
    requires s.loop == IDLE || s.loop == i
    requires s.server.numClients > 0
    ensures var s' := DropSession(s, i, Disconnect(s.server, i), |Held(s.server.conns[i].cells)|);
            ClusterInv(f, s') && Extends(s.server, s'.server)
  {
    hide Inv, AllLinked, Correct, Live, Held, Extends;
    OpenIff(f, s, i);
    var w := Disconnect(s.server, i);
    DisconnectInv(s.server, i);
    DisconnectResults(f, s.server, i);
    CellsBound(s.server, i);
    assert w.conns == s.server.conns[i := w.conns[i]];
    LinkedAfter(f, s.server.tasks, s.server.conns, s.sessions, i, w.conns[i], Closed);
  }

  lemma CellsBound<T, R>(v: Server<T, R>, i: nat)
    requires Inv(v) && i < |v.conns|
    ensures |Held(v.conns[i].cells)| <= 16
  {
    HeldSize(v.conns[i].cells);
  }

  // ---------- SendTask ----------

  lemma SendKeeps<T, R>(f: T -> R, s: Cluster<T, R>, answer: SendOutcome)
    requires ClusterInv(f, s) && Enabled(s, SendTask(answer))
    ensures ClusterInv(f, ApplySendTask(s, answer)) && Extends(s.server, ApplySendTask(s, answer).server)
  {
    hide Inv, AllLinked, Correct, Live, Held, Extends, TakeTask;
    var i: nat := s.loop;
    OpenIff(f, s, i);
    TakeTaskInv(s.server, i);
    SameResults(f, s.server, s.server);
    if TakeTask(s.server, i).NoRoom? {
      TooManyThreads(f, s, i);
    } else if TakeTask(s.server, i).Got? {
      TakeKeeps(f, s);
      var s1 := Taken(s);
      match answer
      case NotReady =>
      case Sent =>
        SentKeeps(f, s1);
        ExtendsVia(s.server, s1.server, ApplySendTask(s, answer).server);
      case Broken =>
        OpenIff(f, s1, i);
        DropSessionKeeps(f, s1, i);
        TakenHeld(s.server, i);
        ExtendsVia(s.server, s1.server, Disconnect(s1.server, i));
    }
  }

  lemma ExtendsVia<T, R>(u: Server<T, R>, v: Server<T, R>, w: Server<T, R>)
    requires Extends(u, v)
    requires Extends(v, w) || (w.tasks == v.tasks && w.rets == v.rets && w.status == v.status && |w.conns| == |v.conns|)
    ensures Extends(u, w)
  {
  }

  /** The task list is full only for a client with more threads than it has cells. */
  lemma TooManyThreads<T, R>(f: T -> R, s: Cluster<T, R>, i: nat)
    requires ClusterInv(f, s) && i < |s.sessions| && s.sessions[i].Open?
    requires CanIterate(s.server, i) && TakeTask(s.server, i).NoRoom?
    ensures |s.sessions[i].client.slots| > 16
  {
    hide Inv, AllLinked, Correct, Live, Held, GetTask;
    OpenIff(f, s, i);
    TakeTaskInv(s.server, i);
    CellBudget(f, s.server.tasks, s.server.conns[i], s.sessions[i]);
    assert |SendingTask(s.server.conns[i])| == 0;
  }

  /** The state between taking a task and the answer of the socket. */
  ghost function Taken<T, R>(s: Cluster<T, R>): Cluster<T, R>
    requires s.loop >= 0 && CanIterate(s.server, s.loop) && TakeTask(s.server, s.loop).Got?
  {
    s.(server := TakeTask(s.server, s.loop).server, handedOut := s.handedOut + NewlyTaken(s.server, s.loop))
  }

  lemma TakeKeeps<T, R>(f: T -> R, s: Cluster<T, R>)
    requires ClusterInv(f, s) && s.phase == Running && s.loop >= 0
    requires CanIterate(s.server, s.loop) && TakeTask(s.server, s.loop).Got?
    ensures ClusterInv(f, Taken(s)) && Extends(s.server, Taken(s).server)
    ensures Taken(s).server.conns[s.loop].sending == TakeTask(s.server, s.loop).cell
  {
    hide Inv, AllLinked, Correct, Live, Held, Extends, LoopSound;
    var i: nat := s.loop;
    SameLength(f, s);
    OpenIff(f, s, i);
    LoopOpen(s.server.conns, s.loop);
    TakeTaskInv(s.server, i);
    TakeResults(f, s.server, i);
    if s.server.conns[i].sending == NO_TASK {
      var w := Taken(s).server;
      TakeLive(f, s.server.tasks, s.server.conns[i], s.sessions[i],
               IndexOf(s.server.conns[i].cells, NO_TASK), LeastFrom(s.server.status, s.server.hint));
      LinkedAfter(f, s.server.tasks, s.server.conns, s.sessions, i, w.conns[i], s.sessions[i]);
      assert s.sessions[i := s.sessions[i]] == s.sessions;
      assert w.conns == s.server.conns[i := w.conns[i]];
      LoopSoundAfter(s.server.conns, s.loop, i, w.conns[i]);
    }
  }

  lemma SameLength<T, R>(f: T -> R, s: Cluster<T, R>)
    requires ClusterInv(f, s)
    ensures |s.sessions| == |s.server.conns|
    ensures |s.server.rets| == |s.server.status| == |s.server.tasks|
  {
    hide Inv, Linked, History, AbortSound;
  }

  lemma LoopOpen(conns: seq<Conn>, loop: int)
    requires LoopSound(conns, loop) && loop >= 0
    ensures loop < |conns| && conns[loop].open && conns[loop].requested > 0
  {
  }

  lemma SentKeeps<T, R>(f: T -> R, s: Cluster<T, R>)
    requires ClusterInv(f, s) && s.phase == Running && 0 <= s.loop < |s.sessions|
    requires s.server.conns[s.loop].sending != NO_TASK
    ensures var i, c, x := s.loop, s.server.conns[s.loop], s.sessions[s.loop];
      && x.Open? && c.requested > 0 && 0 <= c.sending < |c.cells| && 0 <= c.cells[c.sending] < |s.server.tasks|
      && var t := c.cells[c.sending];
         ClusterInv(f, s.(server := s.server.(conns := s.server.conns[i := AfterSend(c)]),
                          sessions := s.sessions[i := x.(down := x.down + [Frame(CMD_TASK, t, s.server.tasks[t])])],
                          loop := if AfterSend(c).requested == 0 then IDLE else i))
  {
    hide AllLinked, Correct, Live, Held, History, AbortSound, CellsMatch, Counted;
    var i: nat := s.loop;
    OpenIff(f, s, i);
    var c, x := s.server.conns[i], s.sessions[i];
    var t := c.cells[c.sending];
    var u := Frame(CMD_TASK, t, s.server.tasks[t]);
    TouchInv(s.server, i, AfterSend(c));
    SentLive(f, s.server.tasks, c, x, u);
    LinkedAfter(f, s.server.tasks, s.server.conns, s.sessions, i, AfterSend(c), x.(down := x.down + [u]));
    SentHistory(f, s, c, x, u);
  }

  /** Sending touches neither results nor the pool. */
  lemma SentHistory<T, R>(f: T -> R, s: Cluster<T, R>, c: Conn, x: Session<T, R>, u: Frame<T>)
    requires ClusterInv(f, s) && s.phase == Running && 0 <= s.loop < |s.sessions| == |s.server.conns|
    requires c.requested > 0 && x.Open?
    ensures var s' := s.(server := s.server.(conns := s.server.conns[s.loop := AfterSend(c)]),
                         sessions := s.sessions[s.loop := x.(down := x.down + [u])],
                         loop := if AfterSend(c).requested == 0 then IDLE else s.loop);
            History(s') && AbortSound(s') && Correct(f, s'.server)
  {
    hide Inv, AllLinked, LoopSound;
  }

  /** Taking a task fills one cell, unless one was in hand already. */
  lemma TakenHeld<T, R>(v: Server<T, R>, i: nat)
    requires CanIterate(v, i) && TakeTask(v, i).Got?
    ensures |Held(TakeTask(v, i).server.conns[i].cells)| == |Held(v.conns[i].cells)| + NewlyTaken(v, i)
  {
    if v.conns[i].sending == NO_TASK {
      HeldUpdate(v.conns[i].cells, IndexOf(v.conns[i].cells, NO_TASK), LeastFrom(v.status, v.hint));
    }
  }

  // ---------- all actions ----------

  lemma StepKeeps<T, R>(f: T -> R, s: Cluster<T, R>, a: Action<T, R>)
    requires ClusterInv(f, s) && Enabled(s, a)
    ensures ClusterInv(f, Apply(f, s, a)) && Extends(s.server, Apply(f, s, a).server)
  {
    hide Inv, AllLinked, Correct, Live, Held, Extends, Disconnect;
    SameResults(f, s.server, s.server);
    match a
    case Connect(c) => ConnectKeeps(f, s, c);
    case ServerReceive(i) => ReceiveKeeps(f, s, i);
    case Disconnection(i, hangup) => DropSessionKeeps(f, s, i);
    case Writable(i) => OpenIff(f, s, i);
    case SendTask(answer) => SendKeeps(f, s, answer);
    case Finish =>
    case _ => ClientStepKeeps(f, s, a);
  }

  predicate ClientAction<T, R>(a: Action<T, R>) {
    a.ClientReceive? || a.ClientCompute? || a.ClientReady? || a.ClientSend? || a.ClientDies?
  }

  lemma ClientReceiveKeeps<T, R>(f: T -> R, s: Cluster<T, R>, i: nat)
    requires ClusterInv(f, s) && Enabled(s, ClientReceive(i))
    ensures ClusterInv(f, ApplyClientReceive(s, i)) && ApplyClientReceive(s, i).server == s.server
  {
    hide ClusterInv, Live, StartComputation;
    OpenIff(f, s, i);
    var x := s.sessions[i];
    ClientReceiveLive(f, s.server.tasks, s.server.conns[i], x);
    var r := StartComputation(x.client, x.down[0].id, x.down[0].payload);
    SessionStep(f, s, i, x.(client := r.value, down := x.down[1..]));
  }

  lemma ClientSendKeeps<T, R>(f: T -> R, s: Cluster<T, R>, i: nat, junk: R)
    requires ClusterInv(f, s) && Enabled(s, ClientSend(i, junk))
    ensures ClusterInv(f, ApplyClientSend(s, i, junk)) && ApplyClientSend(s, i, junk).server == s.server
  {
    hide ClusterInv, Live, Settle, AfterNext, NextFrame;
    OpenIff(f, s, i);
    var x := s.sessions[i];
    ClientSendLive(f, s.server.tasks, s.server.conns[i], x, junk);
    SessionStep(f, s, i, x.(client := Settle(AfterNext(x.client)), up := x.up + [NextFrame(x.client, junk)]));
  }

  lemma ClientComputeKeeps<T, R>(f: T -> R, s: Cluster<T, R>, i: nat, k: nat)
    requires ClusterInv(f, s) && Enabled(s, ClientCompute(i, k))
    ensures ClusterInv(f, Apply(f, s, ClientCompute(i, k))) && Apply(f, s, ClientCompute(i, k)).server == s.server
  {
    hide ClusterInv, Live, Compute;
    OpenIff(f, s, i);
    var x := s.sessions[i];
    ClientComputeLive(f, s.server.tasks, s.server.conns[i], x, k);
    SessionStep(f, s, i, x.(client := Compute(x.client, k, f)));
  }

  lemma ClientReadyKeeps<T, R>(f: T -> R, s: Cluster<T, R>, i: nat, k: nat)
    requires ClusterInv(f, s) && Enabled(s, ClientReady(i, k))
    ensures ClusterInv(f, Apply(f, s, ClientReady(i, k))) && Apply(f, s, ClientReady(i, k)).server == s.server
  {
    hide ClusterInv, Live, MarkReady;
    OpenIff(f, s, i);
    var x := s.sessions[i];
    ClientReadyLive(f, s.server.tasks, s.server.conns[i], x, k);
    SessionStep(f, s, i, x.(client := MarkReady(x.client, k)));
  }

  lemma ClientDiesKeeps<T, R>(f: T -> R, s: Cluster<T, R>, i: nat)
    requires ClusterInv(f, s) && Enabled(s, ClientDies(i))
    ensures ClusterInv(f, Apply(f, s, ClientDies(i))) && Apply(f, s, ClientDies(i)).server == s.server
  {
    hide ClusterInv, Live;
    OpenIff(f, s, i);
    var x := s.sessions[i];
    ClientDiesLive(f, s.server.tasks, s.server.conns[i], x);
    SessionStep(f, s, i, x.(alive := false));
  }

  lemma ClientStepKeeps<T, R>(f: T -> R, s: Cluster<T, R>, a: Action<T, R>)
    requires ClusterInv(f, s) && Enabled(s, a) && ClientAction(a)
    ensures ClusterInv(f, Apply(f, s, a)) && Apply(f, s, a).server == s.server
  {
    hide ClusterInv, Enabled;
    match a
    case ClientReceive(i) => ClientReceiveKeeps(f, s, i);
    case ClientCompute(i, k) => ClientComputeKeeps(f, s, i, k);
    case ClientReady(i, k) => ClientReadyKeeps(f, s, i, k);
    case ClientSend(i, junk) => ClientSendKeeps(f, s, i, junk);
    case ClientDies(i) => ClientDiesKeeps(f, s, i);
  }

  /** A dead client's entries and streams stay as they were. */
  lemma ClientDiesLive<T, R>(f: T -> R, tasks: seq<T>, c: Conn, x: Session<T, R>)
    requires Live(f, tasks, c, x)
    ensures Live(f, tasks, c, x.(alive := false))
  {
  }
}
