/**
 * Runs without disconnects: they never get stuck before all tasks are done, and they
 * cannot go on for ever. Which of them can be completed is the subject of Completion.dfy.
 */
module Progress {
  import opened Config
  import opened ServerModel
  import opened ServerInvariant
  import opened ClientModel
  import opened Cluster
  import opened SessionInvariant
  import opened ClusterInvariant
  import opened Theorems

  // ---------- calm runs ----------

  /** An action that neither kills a client nor breaks a connection. */
  predicate Calm<T, R>(a: Action<T, R>) {
    !a.Disconnection? && !a.ClientDies? && a != SendTask(Broken)
  }

  /** Between handlers, a connection with open requests is armed while there is work. */
  ghost predicate ArmedForWork<T, R>(v: Server<T, R>, loop: int) {
    v.numNotResolved != 0 ==>
      forall i :: 0 <= i < |v.conns| && i != loop && v.conns[i].open && v.conns[i].requested > 0 ==> v.conns[i].armed
  }

  ghost predicate AllAlive<T, R>(sessions: seq<Session<T, R>>) {
    forall i :: 0 <= i < |sessions| && sessions[i].Open? ==> sessions[i].alive
  }

  ghost predicate CalmInv<T, R>(f: T -> R, s: Cluster<T, R>) {
    && ClusterInv(f, s)
    && ArmedForWork(s.server, s.loop)
    && AllAlive(s.sessions)
  }

  lemma InitCalm<T, R>(f: T -> R, tasks: seq<T>, rets: seq<R>, maxClients: nat)
    requires |rets| == |tasks| && maxClients > 0
    ensures CalmInv(f, InitCluster(tasks, rets, maxClients))
  {
    InitClusterInv(f, tasks, rets, maxClients);
  }

  /** One connection changed, the pool of pending tasks did not grow. */
  lemma ArmedAfter<T, R>(v: Server<T, R>, loop: int, w: Server<T, R>, i: nat, c: Conn, loop': int)
    requires ArmedForWork(v, loop) && i < |v.conns| && w.conns == v.conns[i := c]
    requires w.numNotResolved == v.numNotResolved || v.numNotResolved != 0
    requires loop == IDLE || loop == i
    requires i != loop' && c.open && c.requested > 0 && w.numNotResolved != 0 ==> c.armed
    ensures ArmedForWork(w, loop')
  {
  }

  lemma CalmStep<T, R>(f: T -> R, s: Cluster<T, R>, a: Action<T, R>)
    requires CalmInv(f, s) && Enabled(s, a) && Calm(a)
    ensures CalmInv(f, Apply(f, s, a))
  {
    StepKeeps(f, s, a);
    var s' := Apply(f, s, a);
    assert ArmedForWork(s'.server, s'.loop) by {
      ArmedStep(f, s, a);
    }
    assert AllAlive(s'.sessions) by {
      AliveStep(f, s, a);
    }
  }

  lemma ArmedStep<T, R>(f: T -> R, s: Cluster<T, R>, a: Action<T, R>)
    requires CalmInv(f, s) && Enabled(s, a) && Calm(a)
    ensures ArmedForWork(Apply(f, s, a).server, Apply(f, s, a).loop)
  {
    hide Inv, Live, AllLinked, Correct, History, AbortSound, Held;
    var v, w := s.server, Apply(f, s, a).server;
    SameLength(f, s);
    match a
    case Connect(c) =>
      if Accept(v).Accepted? {
        var i := Accept(v).conn;
        ArmedAfter(v, s.loop, w, i, w.conns[i], IDLE);
      }
    case ServerReceive(i) =>
      ReceivedFrame(f, s, i);
      ArmedReceive(v, i, s.sessions[i].up[0]);
    case SendTask(o) => ArmedSend(f, s, o);
    case _ =>
  }

  /** Well-formed clients send nothing but requests and results. */
  lemma ReceivedFrame<T, R>(f: T -> R, s: Cluster<T, R>, i: nat)
    requires ClusterInv(f, s) && Enabled(s, ServerReceive(i))
    ensures var u := s.sessions[i].up[0];
      (u.cmd == CMD_REQUEST_FOR_DATA || (u.cmd == CMD_RESULT && Push(s.server, i, u.id, u.payload).Pushed?))
  {
    hide Inv, AllLinked, Correct, History, AbortSound, LoopSound;
    OpenIff(f, s, i);
    var u := s.sessions[i].up[0];
    assert UpFrame(f, s.server.tasks, u);
    if u.cmd == CMD_RESULT {
      ResultIsExpected(f, s.server.tasks, s.server.conns[i], s.sessions[i]);
      PushOutcome(s.server, i, u.id, u.payload);
    }
  }

  lemma ArmedReceive<T, R>(v: Server<T, R>, i: nat, u: Frame<R>)
    requires i < |v.conns| && v.numClients > 0 && |v.rets| == |v.status| && ArmedForWork(v, IDLE)
    requires u.cmd == CMD_REQUEST_FOR_DATA || (u.cmd == CMD_RESULT && u.id < |v.rets| && Push(v, i, u.id, u.payload).Pushed?)
    ensures Receive(v, i, u).Handled? && ArmedForWork(Receive(v, i, u).server, IDLE)
  {
    var w := Receive(v, i, u).server;
    assert w.conns == v.conns[i := w.conns[i]];
    ArmedAfter(v, IDLE, w, i, w.conns[i], IDLE);
  }

  lemma ArmedSend<T, R>(f: T -> R, s: Cluster<T, R>, o: SendOutcome)
    requires CalmInv(f, s) && Enabled(s, SendTask(o)) && o != Broken
    ensures ArmedForWork(Apply(f, s, SendTask(o)).server, Apply(f, s, SendTask(o)).loop)
  {
    hide Inv, Live, AllLinked, Correct, History, AbortSound, Held, LoopSound;
    var i: nat := s.loop;
    SameLength(f, s);
    OpenIff(f, s, i);
    LoopOpen(s.server.conns, s.loop);
    TakeTaskInv(s.server, i);
    var r := Apply(f, s, SendTask(o));
    if TakeTask(s.server, i).Got? {
      assert r.server.conns == s.server.conns[i := r.server.conns[i]];
      ArmedAfter(s.server, i, r.server, i, r.server.conns[i], r.loop);
    }
  }

  lemma AliveStep<T, R>(f: T -> R, s: Cluster<T, R>, a: Action<T, R>)
    requires CalmInv(f, s) && Enabled(s, a) && Calm(a)
    ensures AllAlive(Apply(f, s, a).sessions)
  {
    hide Inv, Live, AllLinked, Correct, History, AbortSound, Held, LoopSound, Receive, SendIter;
    SameLength(f, s);
    match a
    case ClientReceive(i) =>
      OpenIff(f, s, i);
      ClientReceiveLive(f, s.server.tasks, s.server.conns[i], s.sessions[i]);
    case ServerReceive(i) =>
      ReceivedFrame(f, s, i);
      ArmedReceive(s.server, i, s.sessions[i].up[0]);
    case SendTask(o) =>
    case _ =>
  }

  // ---------- no deadlock ----------

  /** The actions that move the computation forward. */
  predicate Productive<T, R>(a: Action<T, R>) {
    a.Writable? || a == SendTask(Sent) || a.ServerReceive? || a.ClientReceive? || a.ClientCompute? || a.ClientReady? || a.ClientSend?
  }

  /** Nothing is on its way and no thread is busy. */
  ghost predicate Quiet<T, R>(x: Session<T, R>) {
    x.Open? ==> x.up == [] && x.down == [] && x.client.initial == 0
                && forall k :: 0 <= k < |x.client.slots| ==> x.client.slots[k].empty
  }

  lemma QuietSession<T, R>(f: T -> R, tasks: seq<T>, c: Conn, x: Session<T, R>)
    requires Live(f, tasks, c, x) && Quiet(x) && c.sending == NO_TASK
    ensures Held(c.cells) == multiset{} && c.requested > 0
  {
    assert SlotIds(x.client.slots) == seq(|x.client.slots|, _ => NO_TASK);
    HeldBlank(|x.client.slots|);
  }

  /** If everything is quiet then no task is being resolved. */
  lemma QuietServer<T, R>(f: T -> R, s: Cluster<T, R>)
    requires ClusterInv(f, s) && s.loop == IDLE
    requires forall i :: 0 <= i < |s.sessions| ==> Quiet(s.sessions[i])
    ensures s.server.numNotResolved + s.server.numCompleted == |s.server.tasks|
  {
    var v := s.server;
    AllCompleted(v.status);
    forall i | 0 <= i < |v.conns| ensures Held(v.conns[i].cells) == multiset{} {
      hide Inv, Live, Held, Correct, History, AbortSound, Quiet;
      SameLength(f, s);
      OpenIff(f, s, i);
      if v.conns[i].open {
        QuietSession(f, v.tasks, v.conns[i], s.sessions[i]);
      } else {
        ClosedBlank(v, i);
      }
    }
    ClosedAllEmpty(v.conns);
    forall t | 0 <= t < |v.status| ensures v.status[t] != Resolving {
      assert AllHeld(v.conns)[t as int] == ResolvingCount(v.status, t);
    }
    assert Resolving !in v.status;
    hide AllLinked, Correct, History, LoopSound, AbortSound, Held, AllHeld;
  }

  /** A session that is not quiet can take a step, or the server can for it. */
  lemma BusySession<T, R>(f: T -> R, s: Cluster<T, R>, i: nat, junk: R) returns (a: Action<T, R>)
    requires ClusterInv(f, s) && s.phase == Running && s.loop == IDLE
    requires i < |s.sessions| && !Quiet(s.sessions[i])
    requires s.sessions[i].Open? ==> s.sessions[i].alive
    ensures Productive(a) && Guard(s, a)
    ensures !a.Writable? && !a.SendTask? && a.conn == i
  {
    hide Inv, AllLinked, Correct, History, AbortSound, LoopSound, Located, Tokens;
    OpenIff(f, s, i);
    var x := s.sessions[i];
    if x.up != [] {
      a := ServerReceive(i);
    } else if x.down != [] {
      a := ClientReceive(i);
    } else if x.client.initial != 0 {
      a := ClientSend(i, junk);
    } else {
      var k :| 0 <= k < |x.client.slots| && !x.client.slots[k].empty;
      a := if x.client.slots[k].signalled then ClientReady(i, k)
           else if x.client.slots[k].waiting then ClientSend(i, junk) else ClientCompute(i, k);
    }
  }

  /** In every state of a calm run with work left and a client connected, some action that
      moves the computation forward is enabled. */
  lemma NoDeadlock<T, R>(f: T -> R, s: Cluster<T, R>, i: nat) returns (a: Action<T, R>)
    requires CalmInv(f, s) && s.phase == Running && s.server.numCompleted < |s.server.tasks|
    requires i < |s.sessions| && s.sessions[i].Open?
    ensures Productive(a) && Enabled(s, a)
  {
    hide Inv, AllLinked, Correct, History, AbortSound, Live, Quiet;
    SameLength(f, s);
    if s.loop >= 0 {
      a := SendTask(Sent);
    } else if exists j :: 0 <= j < |s.sessions| && !Quiet(s.sessions[j]) {
      var j :| 0 <= j < |s.sessions| && !Quiet(s.sessions[j]);
      SomeTask(f, s);
      a := BusySession(f, s, j, s.server.rets[0]);
    } else {
      QuietServer(f, s);
      OpenIff(f, s, i);
      QuietSession(f, s.server.tasks, s.server.conns[i], s.sessions[i]);
      a := Writable(i);
    }
    AlwaysInBounds(f, s, a);
  }

  lemma SomeTask<T, R>(f: T -> R, s: Cluster<T, R>)
    requires ClusterInv(f, s) && s.server.numCompleted < |s.server.tasks|
    ensures |s.server.rets| > 0
  {
    hide AllLinked, Correct, History, AbortSound, LoopSound, CellsMatch;
  }

  // ---------- termination ----------

  function SlotWeight<T, R>(x: Slot<T, R>): nat {
    if x.empty then 0 else if x.waiting then 6 else if x.signalled then 7 else 8
  }

  function SlotsWeight<T, R>(slots: seq<Slot<T, R>>): nat {
    if slots == [] then 0 else SlotWeight(slots[0]) + SlotsWeight(slots[1..])
  }

  function UpWeight<R>(up: seq<Frame<R>>): nat {
    if up == [] then 0 else (if up[0].cmd == CMD_RESULT then 5 else 2) + UpWeight(up[1..])
  }

  /** How many steps are still owed by what hangs on one connection. */
  function SessionWeight<T, R>(c: Conn, x: Session<T, R>): nat {
    if x.Closed? then 0
    else 3 * x.client.initial + UpWeight(x.up) + (if c.sending == NO_TASK then 0 else 11)
         + 9 * |x.down| + SlotsWeight(x.client.slots)
  }

  function SessionsWeight<T, R>(conns: seq<Conn>, sessions: seq<Session<T, R>>): nat
    requires |conns| == |sessions|
  {
    if conns == [] then 0 else SessionWeight(conns[0], sessions[0]) + SessionsWeight(conns[1..], sessions[1..])
  }

  /** An upper bound on the steps a calm run can still take without new connections. */
  function Measure<T, R>(s: Cluster<T, R>): int
    requires |s.sessions| == |s.server.conns|
  {
    12 * s.server.numNotResolved + SessionsWeight(s.server.conns, s.sessions) + (if s.loop == IDLE then 1 else 0)
  }

  lemma {:induction false} SlotsWeightUpdate<T, R>(slots: seq<Slot<T, R>>, k: nat, x: Slot<T, R>)
    requires k < |slots|
    ensures SlotsWeight(slots[k := x]) == SlotsWeight(slots) - SlotWeight(slots[k]) + SlotWeight(x)
  {
    if k == 0 {
      assert slots[k := x][1..] == slots[1..];
    } else {
      assert slots[k := x][1..] == slots[1..][k - 1 := x];
      SlotsWeightUpdate(slots[1..], k - 1, x);
    }
  }

  lemma {:induction false} UpWeightPush<R>(up: seq<Frame<R>>, u: Frame<R>)
    ensures UpWeight(up + [u]) == UpWeight(up) + (if u.cmd == CMD_RESULT then 5 else 2)
  {
    if up != [] {
      assert (up + [u])[1..] == up[1..] + [u];
      UpWeightPush(up[1..], u);
    }
  }

  lemma {:induction false} SessionsWeightUpdate<T, R>(conns: seq<Conn>, sessions: seq<Session<T, R>>,
                                                      i: nat, c: Conn, x: Session<T, R>)
    requires |conns| == |sessions| && i < |conns|
    ensures SessionsWeight(conns[i := c], sessions[i := x])
         == SessionsWeight(conns, sessions) - SessionWeight(conns[i], sessions[i]) + SessionWeight(c, x)
  {
    if i == 0 {
      assert conns[i := c][1..] == conns[1..] && sessions[i := x][1..] == sessions[1..];
    } else {
      assert conns[i := c][1..] == conns[1..][i - 1 := c] && sessions[i := x][1..] == sessions[1..][i - 1 := x];
      SessionsWeightUpdate(conns[1..], sessions[1..], i - 1, c, x);
    }
  }

  /** Every productive action that does not end in an abort uses up part of the measure. */
  lemma MeasureDrops<T, R>(f: T -> R, s: Cluster<T, R>, a: Action<T, R>)
    requires ClusterInv(f, s) && Enabled(s, a) && Productive(a)
    ensures var s' := Apply(f, s, a);
      |s.sessions| == |s.server.conns| && |s'.sessions| == |s'.server.conns|
      && (s'.phase == Running ==> Measure(s') < Measure(s))
  {
    hide Inv, AllLinked, Correct, History, AbortSound, Live, LoopSound, Held, SessionsWeight;
    SameLength(f, s);
    StepKeeps(f, s, a);
    SameLength(f, Apply(f, s, a));
    match a
    case Writable(i) =>
    case SendTask(_) => SendWeight(f, s);
    case ServerReceive(i) => ReceiveWeight(f, s, i);
    case _ => ClientWeight(f, s, a);
  }

  lemma SendWeight<T, R>(f: T -> R, s: Cluster<T, R>)
    requires ClusterInv(f, s) && Enabled(s, SendTask(Sent)) && |s.sessions| == |s.server.conns|
    ensures var s' := ApplySendTask(s, Sent);
      |s'.sessions| == |s'.server.conns| && (s'.phase == Running ==> Measure(s') < Measure(s))
  {
    hide Inv, AllLinked, Correct, History, AbortSound, Live, LoopSound, Held, SessionsWeight, SlotsWeight, UpWeight;
    var i: nat := s.loop;
    SameLength(f, s);
    LoopOpen(s.server.conns, s.loop);
    OpenIff(f, s, i);
    TakeTaskInv(s.server, i);
    if TakeTask(s.server, i).Got? {
      var s' := ApplySendTask(s, Sent);
      assert s'.server.conns == s.server.conns[i := s'.server.conns[i]];
      SessionsWeightUpdate(s.server.conns, s.sessions, i, s'.server.conns[i], s'.sessions[i]);
    }
  }

  lemma ReceiveWeight<T, R>(f: T -> R, s: Cluster<T, R>, i: nat)
    requires ClusterInv(f, s) && Enabled(s, ServerReceive(i)) && |s.sessions| == |s.server.conns|
    ensures var s' := ApplyReceive(s, i);
      |s'.sessions| == |s'.server.conns| && (s'.phase == Running ==> Measure(s') < Measure(s))
  {
    hide Inv, AllLinked, Correct, History, AbortSound, Live, LoopSound, Held, SessionsWeight, SlotsWeight;
    ReceivedFrame(f, s, i);
    var s' := ApplyReceive(s, i);
    assert s'.server.conns == s.server.conns[i := s'.server.conns[i]];
    SessionsWeightUpdate(s.server.conns, s.sessions, i, s'.server.conns[i], s'.sessions[i]);
  }

  lemma ClientWeight<T, R>(f: T -> R, s: Cluster<T, R>, a: Action<T, R>)
    requires ClusterInv(f, s) && Enabled(s, a) && Productive(a) && ClientAction(a) && |s.sessions| == |s.server.conns|
    ensures var s' := Apply(f, s, a);
      s'.server == s.server && |s'.sessions| == |s.sessions| && Measure(s') < Measure(s)
  {
    hide Inv, AllLinked, Correct, History, AbortSound, Live, LoopSound, Held, SlotsWeight, UpWeight, ClusterInv, Measure;
    var i := a.conn;
    OpenIff(f, s, i);
    var x := s.sessions[i];
    match a {
      case ClientReceive(_) =>
        ClientReceiveLive(f, s.server.tasks, s.server.conns[i], x);
        var k := FirstEmpty(x.client.slots);
        var y := x.client.slots[k].(empty := false, taskId := x.down[0].id, data := x.down[0].payload);
        WaitingOnlyBusy(f, s.server.tasks, s.server.conns[i], x, k);
        SlotsWeightUpdate(x.client.slots, k, y);
      case ClientCompute(_, k) =>
        SlotsWeightUpdate(x.client.slots, k, Compute(x.client, k, f).slots[k]);
      case ClientReady(_, k) =>
        WaitingOnlyBusy(f, s.server.tasks, s.server.conns[i], x, k);
        SlotsWeightUpdate(x.client.slots, k, MarkReady(x.client, k).slots[k]);
      case ClientSend(_, junk) =>
        UpWeightPush(x.up, NextFrame(x.client, junk));
        var k := FirstWaiting(x.client.slots);
        if k < |x.client.slots| {
          WaitingOnlyBusy(f, s.server.tasks, s.server.conns[i], x, k);
          SlotsWeightUpdate(x.client.slots, k, Freed(x.client.slots[k]));
        }
    }
    OneSession(s, Apply(f, s, a), i);
  }

  lemma OneSession<T, R>(s: Cluster<T, R>, s': Cluster<T, R>, i: nat)
    requires |s.sessions| == |s.server.conns| && i < |s.sessions| == |s'.sessions|
    requires s' == s.(sessions := s.sessions[i := s'.sessions[i]])
    requires SessionWeight(s.server.conns[i], s'.sessions[i]) < SessionWeight(s.server.conns[i], s.sessions[i])
    ensures Measure(s') < Measure(s)
  {
    hide SessionWeight;
    SessionsWeightUpdate(s.server.conns, s.sessions, i, s.server.conns[i], s'.sessions[i]);
    assert s.server.conns[i := s.server.conns[i]] == s.server.conns;
  }

  lemma WaitingOnlyBusy<T, R>(f: T -> R, tasks: seq<T>, c: Conn, x: Session<T, R>, k: nat)
    requires Live(f, tasks, c, x) && k < |x.client.slots|
    ensures x.client.slots[k].empty ==> Blank(x.client.slots[k])
    ensures !(x.client.slots[k].signalled && x.client.slots[k].waiting)
  {
    assert SlotSound(f, tasks, x.client.slots[k]);
  }

  predicate AllProductive<T, R>(acts: seq<Action<T, R>>) {
    forall k :: 0 <= k < |acts| ==> Productive(acts[k])
  }

  lemma MeasureNatural<T, R>(f: T -> R, s: Cluster<T, R>)
    requires ClusterInv(f, s)
    ensures |s.sessions| == |s.server.conns| && Measure(s) >= 0
  {
    hide Correct, History, LoopSound, AbortSound, Linked, CellsMatch, SessionsWeight;
  }

  /** No run of productive actions is longer than the measure of where it starts allows. */
  lemma {:induction false} RunsAreBounded<T, R>(f: T -> R, s: Cluster<T, R>, acts: seq<Action<T, R>>)
    requires ClusterInv(f, s) && IsRun(f, s, acts) && AllProductive(acts)
    ensures |s.sessions| == |s.server.conns| && |acts| <= Measure(s) + 1
    decreases |acts|
  {
    hide ClusterInv, Apply, Measure, InBounds;
    MeasureNatural(f, s);
    if acts != [] {
      var s1 := Apply(f, s, acts[0]);
      StepKeeps(f, s, acts[0]);
      MeasureDrops(f, s, acts[0]);
      assert IsRun(f, s1, acts[1..]);
      if s1.phase == Running {
        RunsAreBounded(f, s1, acts[1..]);
      } else {
        assert acts[1..] == [];
      }
    }
  }

  lemma StaysOpen<T, R>(f: T -> R, s: Cluster<T, R>, a: Action<T, R>, i: nat)
    requires CalmInv(f, s) && Enabled(s, a) && Productive(a) && i < |s.sessions| && s.sessions[i].Open?
    ensures i < |Apply(f, s, a).sessions| && Apply(f, s, a).sessions[i].Open?
  {
    hide Inv, Live, AllLinked, Correct, History, AbortSound, Held, LoopSound, Receive;
    SameLength(f, s);
    match a
    case ServerReceive(j) =>
      ReceivedFrame(f, s, j);
      ArmedReceive(s.server, j, s.sessions[j].up[0]);
    case _ =>
  }

  /** A step of a client concerns one session and keeps its number of threads. */
  lemma ClientThreads<T, R>(f: T -> R, s: Cluster<T, R>, a: Action<T, R>)
    requires Enabled(s, a) && ClientAction(a)
    ensures a.conn < |s.sessions| == |Apply(f, s, a).sessions| && s.sessions[a.conn].Open?
    ensures var x, y := s.sessions[a.conn], Apply(f, s, a).sessions[a.conn];
      && Apply(f, s, a).sessions == s.sessions[a.conn := y]
      && y.Open? && |y.client.slots| == |x.client.slots|
  {
    hide FirstEmpty, FirstWaiting, Blank, Computing;
  }

  /** Productive actions keep every client's number of threads. */
  lemma ThreadsKept<T, R>(f: T -> R, s: Cluster<T, R>, a: Action<T, R>)
    requires CalmInv(f, s) && Enabled(s, a) && Calm(a) && !a.Connect? && ThreadsFit(s.sessions)
    ensures ThreadsFit(Apply(f, s, a).sessions)
  {
    hide Inv, Live, AllLinked, Correct, History, AbortSound, Held, LoopSound, Receive, SendIter, ArmedForWork;
    SameLength(f, s);
    if a.ServerReceive? {
      ReceivedFrame(f, s, a.conn);
      ArmedReceive(s.server, a.conn, s.sessions[a.conn].up[0]);
    } else if a.SendTask? {
      CalmSend(s, a.answer);
    } else if ClientAction(a) {
      ClientThreads(f, s, a);
      hide Apply;
    }
  }

  /** A send that does not break the connection keeps all clients. */
  lemma CalmSend<T, R>(s: Cluster<T, R>, o: SendOutcome)
    requires Enabled(s, SendTask(o)) && o != Broken
    ensures !SendIter(s.server, s.loop, o).IterDropped?
  {
    hide TakeTask, Disconnect;
  }

  /** Only a newcomer can meet a full connection table. */
  lemma NewcomersOnly<T, R>(f: T -> R, s: Cluster<T, R>, a: Action<T, R>)
    requires Enabled(s, a) && Productive(a)
    ensures Apply(f, s, a).phase == Running || Apply(f, s, a).phase.Aborted?
    ensures Apply(f, s, a).phase != Aborted(NoFreeConnection)
  {
    hide SendIter, Receive, StartComputation, Settle, AfterNext, NextFrame, Held;
  }

  /** The exits that are left when no client has too many threads. */
  lemma AbortMeaning<T, R>(f: T -> R, s: Cluster<T, R>)
    requires ClusterInv(f, s) && s.phase.Aborted? && ThreadsFit(s.sessions)
    ensures s.phase == Aborted(GreedyClient) || s.phase == Aborted(NoFreeConnection)
  {
    hide Inv, AllLinked, Correct, History, LoopSound;
  }

  /** How a productive action can end a run: only over a request there is no task for, when
      no client has too many threads. */
  lemma ProductivePhase<T, R>(f: T -> R, s: Cluster<T, R>, a: Action<T, R>)
    requires CalmInv(f, s) && Enabled(s, a) && Productive(a)
    ensures Apply(f, s, a).phase == Running || Apply(f, s, a).phase.Aborted?
    ensures ThreadsFit(s.sessions) ==> Apply(f, s, a).phase == Running || Apply(f, s, a).phase == Aborted(GreedyClient)
  {
    hide ClusterInv, Apply, Enabled, ThreadsFit;
    StepKeeps(f, s, a);
    NewcomersOnly(f, s, a);
    if ThreadsFit(s.sessions) && Apply(f, s, a).phase.Aborted? {
      ThreadsKept(f, s, a);
      AbortMeaning(f, Apply(f, s, a));
    }
  }

  /** From any state of a calm run with a client connected, carrying on leads to a state where
      all tasks are completed or to an exit of the server; when no client has too many threads
      that exit is the one over a request it has no task for. */
  lemma {:induction false} EventuallyDone<T, R>(f: T -> R, s: Cluster<T, R>, i: nat) returns (acts: seq<Action<T, R>>)
    requires CalmInv(f, s) && s.phase == Running && i < |s.sessions| && s.sessions[i].Open?
    ensures IsRun(f, s, acts) && AllProductive(acts)
    ensures var e := After(f, s, acts);
      e.phase.Aborted? || e.server.numCompleted == |e.server.tasks|
    ensures var e := After(f, s, acts);
      ThreadsFit(s.sessions) ==> e.phase == Aborted(GreedyClient) || e.server.numCompleted == |e.server.tasks|
    decreases Measure(s)
  {
    hide ClusterInv, Apply, Measure, InBounds, Productive, Guard, ThreadsFit;
    MeasureNatural(f, s);
    if s.server.numCompleted == |s.server.tasks| {
      acts := [];
    } else {
      CompletedBound(f, s);
      var a := NoDeadlock(f, s, i);
      var s1 := Apply(f, s, a);
      CalmProductive(a);
      CalmStep(f, s, a);
      MeasureDrops(f, s, a);
      StaysOpen(f, s, a, i);
      MeasureNatural(f, s1);
      ProductivePhase(f, s, a);
      if ThreadsFit(s.sessions) {
        ThreadsKept(f, s, a);
      }
      var rest := [];
      if s1.phase == Running {
        rest := EventuallyDone(f, s1, i);
      }
      acts := [a] + rest;
      assert acts[1..] == rest;
    }
  }

  lemma CalmProductive<T, R>(a: Action<T, R>)
    requires Productive(a)
    ensures Calm(a) && !a.Connect?
  {
  }

  lemma CompletedBound<T, R>(f: T -> R, s: Cluster<T, R>)
    requires ClusterInv(f, s)
    ensures s.server.numCompleted <= |s.server.tasks|
  {
    AllCompleted(s.server.status);
    hide AllLinked, Correct, History, LoopSound, AbortSound, CellsMatch;
  }

  // ---------- from the initial state ----------

  lemma {:induction false} CalmRunKeeps<T, R>(f: T -> R, s: Cluster<T, R>, acts: seq<Action<T, R>>)
    requires CalmInv(f, s) && IsRun(f, s, acts) && forall k :: 0 <= k < |acts| ==> Calm(acts[k])
    ensures CalmInv(f, After(f, s, acts))
    decreases |acts|
  {
    hide CalmInv, Apply, Enabled;
    if acts != [] {
      CalmStep(f, s, acts[0]);
      CalmRunKeeps(f, Apply(f, s, acts[0]), acts[1..]);
    }
  }

  /** Any calm run of a fresh cluster that has connected a client can be carried on until all
      tasks are completed or the server exits, and then, when no client has too many threads,
      over a request it has no task for. */
  lemma CalmRunsCanFinish<T, R>(f: T -> R, tasks: seq<T>, rets: seq<R>, maxClients: nat,
                                acts: seq<Action<T, R>>, s: Cluster<T, R>, i: nat) returns (more: seq<Action<T, R>>)
    requires Reached(f, tasks, rets, maxClients, acts, s) && forall k :: 0 <= k < |acts| ==> Calm(acts[k])
    requires s.phase == Running && i < |s.sessions| && s.sessions[i].Open?
    ensures IsRun(f, s, more) && AllProductive(more)
    ensures |s.sessions| == |s.server.conns| && |more| <= Measure(s) + 1
    ensures var e := After(f, s, more); e.phase.Aborted? || e.server.numCompleted == |e.server.tasks|
    ensures var e := After(f, s, more);
      ThreadsFit(s.sessions) ==> e.phase == Aborted(GreedyClient) || e.server.numCompleted == |e.server.tasks|
  {
    hide ThreadsFit, IsRun, After, ClusterInv, Measure, AllProductive;
    InitCalm(f, tasks, rets, maxClients);
    CalmRunKeeps(f, InitCluster(tasks, rets, maxClients), acts);
    more := EventuallyDone(f, s, i);
    RunsAreBounded(f, s, more);
  }
}
