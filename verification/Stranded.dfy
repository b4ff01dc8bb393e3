/**
 * What a disconnect can leave behind: it returns tasks to the pool without arming anybody for
 * writing, so clients that have asked and are waiting may never be given them. Here is exactly
 * when nothing moves any more, and a run that gets there.
 */
module Stranded {
  import opened Config
  import opened ServerModel
  import opened ServerInvariant
  import opened ClientModel
  import opened Cluster
  import opened SessionInvariant
  import opened ClusterInvariant
  import opened Theorems
  import opened Progress
  import opened RequestBudget
  import opened DispatchRun
  import opened GreedyExit

  // ---------- exactly when nothing moves ----------

  /** Every client waits with all its threads, and the server listens to none of them. */
  ghost predicate AllWait<T, R>(s: Cluster<T, R>) {
    && s.loop == IDLE
    && forall i :: Connected(s, i) ==> Quiet(s.sessions[i]) && !s.server.conns[i].armed
  }

  lemma SomethingMoves<T, R>(f: T -> R, s: Cluster<T, R>) returns (a: Action<T, R>)
    requires ClusterInv(f, s) && s.phase == Running && AllAlive(s.sessions) && !AllWait(s)
    ensures Productive(a) && Enabled(s, a)
  {
    hide ClusterInv, InBounds, Quiet, Live;
    SameLength(f, s);
    LoopIndex(f, s);
    if s.loop != IDLE {
      a := SendTask(Sent);
    } else {
      var i :| Connected(s, i) && !(Quiet(s.sessions[i]) && !s.server.conns[i].armed);
      OpenIff(f, s, i);
      if Quiet(s.sessions[i]) {
        BetweenHandlers(f, s, i);
        QuietSession(f, s.server.tasks, s.server.conns[i], s.sessions[i]);
        a := Writable(i);
      } else {
        NonEmptyTable(f, s.server.tasks, s.server.conns[i], s.sessions[i]);
        a := BusySession(f, s, i, s.sessions[i].client.slots[0].ret);
      }
    }
    AlwaysInBounds(f, s, a);
  }

  lemma LoopIndex<T, R>(f: T -> R, s: Cluster<T, R>)
    requires ClusterInv(f, s)
    ensures s.loop >= IDLE
  {
    hide Inv, AllLinked, Correct, History, AbortSound;
  }

  lemma NonEmptyTable<T, R>(f: T -> R, tasks: seq<T>, c: Conn, x: Session<T, R>)
    requires Live(f, tasks, c, x)
    ensures x.Open? && |x.client.slots| > 0
  {
  }

  lemma NothingMoves<T, R>(f: T -> R, s: Cluster<T, R>, a: Action<T, R>)
    requires ClusterInv(f, s) && AllWait(s) && Productive(a)
    ensures !Enabled(s, a)
  {
    hide Inv, Correct, History, AbortSound, LoopSound, AllLinked, Live, InBounds;
    SameLength(f, s);
    if Enabled(s, a) && !a.SendTask? {
      var i := a.conn;
      OpenIff(f, s, i);
      assert Connected(s, i);
      QuietSlots(f, s.server.tasks, s.server.conns[i], s.sessions[i]);
    }
  }

  lemma QuietSlots<T, R>(f: T -> R, tasks: seq<T>, c: Conn, x: Session<T, R>)
    requires Live(f, tasks, c, x) && Quiet(x)
    ensures x.Open? && !HasPending(x.client) && forall k :: 0 <= k < |x.client.slots| ==> Blank(x.client.slots[k])
  {
    hide Located, Tokens, ArmedExact;
    forall k | 0 <= k < |x.client.slots| ensures Blank(x.client.slots[k]) {
      assert SlotSound(f, tasks, x.client.slots[k]);
    }
  }

  /** With all connected clients alive, no action that moves the computation forward is enabled
      exactly if all clients wait and none is armed; every task is then pending or finished. */
  lemma StuckExactly<T, R>(f: T -> R, s: Cluster<T, R>)
    requires ClusterInv(f, s) && s.phase == Running && AllAlive(s.sessions)
    ensures (forall a: Action<T, R> :: Productive(a) ==> !Enabled(s, a)) <==> AllWait(s)
    ensures AllWait(s) ==> s.server.numNotResolved + s.server.numCompleted == |s.server.tasks|
  {
    hide ClusterInv, Enabled, Quiet;
    if AllWait(s) {
      forall a: Action<T, R> | Productive(a) ensures !Enabled(s, a) {
        NothingMoves(f, s, a);
      }
      SameLength(f, s);
      forall i | 0 <= i < |s.sessions| ensures Quiet(s.sessions[i]) {
        OpenIff(f, s, i);
        assert s.sessions[i].Open? ==> Connected(s, i);
        ClosedQuiet(s.sessions[i]);
      }
      QuietServer(f, s);
    } else {
      var a := SomethingMoves(f, s);
    }
  }

  lemma ClosedQuiet<T, R>(x: Session<T, R>)
    ensures x.Closed? ==> Quiet(x)
  {
  }

  // ---------- a run that gets there ----------

  /** A client that asks with all its threads waits. */
  lemma AskingWaits<T, R>(f: T -> R, s: Cluster<T, R>, i: nat)
    requires ClusterInv(f, s) && Connected(s, i)
    requires s.server.conns[i].requested == |s.sessions[i].client.slots|
    ensures Quiet(s.sessions[i])
  {
    hide Inv, AllLinked, Correct, History, AbortSound, LoopSound, Held;
    TokenConservation(f, s, i);
    OpenIff(f, s, i);
    NoTaskNoBusy(f, s.server.tasks, s.server.conns[i], s.sessions[i]);
  }

  lemma NoTaskNoBusy<T, R>(f: T -> R, tasks: seq<T>, c: Conn, x: Session<T, R>)
    requires Live(f, tasks, c, x) && |Held(SlotIds(x.client.slots))| == 0
    ensures forall k :: 0 <= k < |x.client.slots| ==> x.client.slots[k].empty
  {
    hide Located, Tokens, ArmedExact;
    var ids := SlotIds(x.client.slots);
    forall k | 0 <= k < |ids| ensures x.client.slots[k].empty {
      assert SlotSound(f, tasks, x.client.slots[k]);
      if !x.client.slots[k].empty {
        HeldMember(ids, ids[k]);
      }
    }
  }

  /** The server still holds a task it has on the way to a client. */
  lemma OnTheWayIsHeld<T, R>(f: T -> R, s: Cluster<T, R>, i: nat)
    requires ClusterInv(f, s) && Connected(s, i) && s.sessions[i].down != []
    ensures |Held(s.server.conns[i].cells)| > 0
  {
    hide Inv, AllLinked, Correct, History, AbortSound, LoopSound, Held;
    OpenIff(f, s, i);
  }

  ghost predicate OnlyThese<T, R>(s: Cluster<T, R>, i: nat, j: nat) {
    i != j && Connected(s, i) && Connected(s, j) && forall k :: Connected(s, k) ==> k == i || k == j
  }

  /** Client i dies while the server holds a task for it and j waits unarmed: nothing moves. */
  lemma LeftBehind<T, R>(f: T -> R, s: Cluster<T, R>, i: nat, j: nat)
    requires AtRest(f, s) && OnlyThese(s, i, j) && |Held(s.server.conns[i].cells)| > 0
    requires s.server.numNotResolved == 0 && !s.server.conns[j].armed
    requires s.server.conns[j].requested == |s.sessions[j].client.slots|
    ensures Enabled(s, Disconnection(i, false))
    ensures var e := Apply(f, s, Disconnection(i, false));
      && e.phase == Running && AllAlive(e.sessions) && AllWait(e) && Connected(e, j)
      && e.server.numNotResolved > 0 && e.disconnects == s.disconnects + 1
  {
    hide Inv, Live, AllLinked, Correct, History, AbortSound, ArmedForWork, LoopSound, Held, Quiet, Returned, LowerHint, ThreadsFit;
    assert Connected(s, i) && Connected(s, j);
    AskingWaits(f, s, j);
    var a: Action<T, R> := Disconnection(i, false);
    AlwaysInBounds(f, s, a);
    var e := Apply(f, s, a);
    forall k | Connected(e, k) ensures k == j {
      assert Connected(s, k);
    }
  }

  /** Extending a run from the initial state. */
  lemma ReachedThen<T, R>(f: T -> R, tasks: seq<T>, rets: seq<R>, m: nat, acts: seq<Action<T, R>>, s: Cluster<T, R>,
                          more: seq<Action<T, R>>)
    requires Reached(f, tasks, rets, m, acts, s) && IsRun(f, s, more)
    ensures Reached(f, tasks, rets, m, acts + more, After(f, s, more))
  {
    hide IsRun, After;
    AppendRun(f, InitCluster(tasks, rets, m), acts, more);
  }

  lemma CalmStepDisconnects<T, R>(f: T -> R, s: Cluster<T, R>, a: Action<T, R>)
    requires CalmInv(f, s) && Enabled(s, a) && Calm(a)
    ensures Apply(f, s, a).disconnects == s.disconnects
  {
    hide Inv, Live, AllLinked, Correct, History, AbortSound, LoopSound, ArmedForWork, Receive, SendIter, StartComputation;
    if a.ServerReceive? {
      ReceivedFrame(f, s, a.conn);
      SameLength(f, s);
      ArmedReceive(s.server, a.conn, s.sessions[a.conn].up[0]);
    } else if a.SendTask? {
      CalmSend(s, a.answer);
    }
  }

  lemma {:induction false} NoDisconnects<T, R>(f: T -> R, s: Cluster<T, R>, acts: seq<Action<T, R>>)
    requires CalmInv(f, s) && IsRun(f, s, acts) && AllSteady(acts)
    ensures After(f, s, acts).disconnects == s.disconnects
    decreases |acts|
  {
    hide CalmInv, Apply, Enabled;
    if acts != [] {
      CalmStep(f, s, acts[0]);
      CalmStepDisconnects(f, s, acts[0]);
      assert AllSteady(acts[1..]);
      NoDisconnects(f, Apply(f, s, acts[0]), acts[1..]);
    }
  }

  /** Two tasks, and two clients with one thread each that have not asked yet. */
  lemma TwoConnected<T, R>(f: T -> R, tasks: seq<T>, r: R, m: nat)
    returns (acts: seq<Action<T, R>>, s: Cluster<T, R>, i: nat, j: nat)
    requires |tasks| == 2 && m >= 2
    ensures Reached(f, tasks, [r, r], m, acts, s) && AtRest(f, s) && OnlyThese(s, i, j)
    ensures s.server.numNotResolved == 2 && s.disconnects == 0
    ensures s.server.conns[i].requested == s.server.conns[j].requested == 0
    ensures |s.sessions[i].client.slots| == |s.sessions[j].client.slots| == 1
  {
    hide CalmInv, Apply, Enabled, IsRun, After;
    var c := OneThread<T, R>(tasks[0], r);
    var s0: Cluster<T, R> := InitCluster(tasks, [r, r], m);
    Start(f, tasks, r, m);
    i := ConnectFresh(f, s0, c);
    var s1 := Apply(f, s0, Connect(c));
    OneAction(f, s0, Connect(c));
    CalmStepDisconnects(f, s0, Connect(c));
    j := ConnectFresh(f, s1, c);
    CalmStepDisconnects(f, s1, Connect(c));
    s := Apply(f, s1, Connect(c));
    OneAction(f, s1, Connect(c));
    ReachedThen(f, tasks, [r, r], m, [], s0, [Connect(c)]);
    ReachedThen(f, tasks, [r, r], m, [] + [Connect(c)], s1, [Connect(c)]);
    acts := [] + [Connect(c)] + [Connect(c)];
  }

  lemma Start<T, R>(f: T -> R, tasks: seq<T>, r: R, m: nat)
    requires |tasks| == 2 && m >= 2
    ensures var s: Cluster<T, R> := InitCluster(tasks, [r, r], m);
      && Reached(f, tasks, [r, r], m, [], s) && AtRest(f, s) && (forall k :: !Connected(s, k))
      && s.server.numClients == 0 && |s.server.conns| == m
      && s.server.numNotResolved == 2 && s.disconnects == 0
  {
    InitCalm(f, tasks, [r, r], m);
  }

  /** What asking once and being served does together. */
  lemma AskedThenServed<T, R>(s: Cluster<T, R>, i: nat, s1: Cluster<T, R>, e: Cluster<T, R>)
    requires Connected(s, i) && s.server.conns[i].requested == 0 && Asked(s, i, 1, s1) && GivenAll(s1, i, e)
    ensures SameThreads(s.sessions, e.sessions) && OthersSame(s.server.conns, i, e.server.conns)
    ensures e.server.numNotResolved == s.server.numNotResolved - 1
    ensures Connected(e, i) && e.server.conns[i].requested == 0 && !e.server.conns[i].armed && e.sessions[i].down != []
  {
  }

  /** A client with one thread asks and is given a task. */
  lemma AskAndServe<T, R>(f: T -> R, s: Cluster<T, R>, i: nat) returns (acts: seq<Action<T, R>>)
    requires AtRest(f, s) && Connected(s, i) && s.server.conns[i].requested == 0 && |s.sessions[i].client.slots| == 1
    requires s.server.numNotResolved > 0
    ensures IsRun(f, s, acts) && AtRest(f, After(f, s, acts))
    ensures var e := After(f, s, acts);
      && e.disconnects == s.disconnects
      && SameThreads(s.sessions, e.sessions) && OthersSame(s.server.conns, i, e.server.conns)
      && e.server.numNotResolved == s.server.numNotResolved - 1
      && Connected(e, i) && e.server.conns[i].requested == 0 && !e.server.conns[i].armed
      && |Held(e.server.conns[i].cells)| > 0
  {
    hide AtRest, CalmInv, IsRun, After, Held, Asked, GivenAll, SameThreads, OthersSame;
    acts := Ask(f, s, i);
    var s1 := After(f, s, acts);
    RestInv(f, s);
    RestInv(f, s1);
    AskedNow(s, i, s1);
    AskersArmed(f, s1, i);
    var more := WriteOut(f, s1, i);
    var e := After(f, s1, more);
    AppendRun(f, s, acts, more);
    RestInv(f, e);
    AskedThenServed(s, i, s1, e);
    OnTheWayIsHeld(f, e, i);
    NoDisconnects(f, s, acts);
    NoDisconnects(f, s1, more);
    acts := acts + more;
  }

  lemma AskedNow<T, R>(s: Cluster<T, R>, i: nat, s1: Cluster<T, R>)
    requires Connected(s, i) && Asked(s, i, 1, s1)
    ensures Connected(s1, i) && s1.server.conns[i].requested == s.server.conns[i].requested + 1
    ensures s1.server.numNotResolved == s.server.numNotResolved
  {
  }

  lemma RestInv<T, R>(f: T -> R, s: Cluster<T, R>)
    requires AtRest(f, s)
    ensures ClusterInv(f, s) && CalmInv(f, s)
  {
    hide ClusterInv;
  }

  lemma SameClients<T, R>(s: Cluster<T, R>, i: nat, e: Cluster<T, R>)
    requires Connected(s, i) && Connected(e, i)
    requires SameThreads(s.sessions, e.sessions) && OthersSame(s.server.conns, i, e.server.conns)
    ensures forall k :: Connected(e, k) <==> Connected(s, k)
  {
  }

  /** Two clients are given the two tasks; one returns its result and asks again, with nothing
      pending and so without being armed; the other dies. Its task is pending again, a client
      waits for it, and nothing ever gives it one. */
  lemma StuckIsReachable<T, R>(f: T -> R, tasks: seq<T>, r: R, m: nat)
    returns (acts: seq<Action<T, R>>, s: Cluster<T, R>, j: nat)
    requires |tasks| == 2 && m >= 2
    ensures Reached(f, tasks, [r, r], m, acts, s) && s.phase == Running && s.disconnects == 1
    ensures Connected(s, j) && s.sessions[j].alive && s.server.numNotResolved > 0
    ensures forall a: Action<T, R> :: Productive(a) ==> !Enabled(s, a)
  {
    hide AtRest, CalmInv, IsRun, After, Held, ClusterInv, Enabled, Apply, AllWait;
    var rets, i := [r, r], 0;
    acts, s, i, j := TwoConnected(f, tasks, r, m);
    var more := AskAndServe(f, s, i);
    var s1 := After(f, s, more);
    ReachedThen(f, tasks, rets, m, acts, s, more);
    SameClients(s, i, s1);
    acts := acts + more;
    more := AskAndServe(f, s1, j);
    var s2 := After(f, s1, more);
    ReachedThen(f, tasks, rets, m, acts, s1, more);
    SameClients(s1, j, s2);
    acts := acts + more;
    more := Ask(f, s2, j);
    RestInv(f, s2);
    NoDisconnects(f, s2, more);
    var s3 := After(f, s2, more);
    ReachedThen(f, tasks, rets, m, acts, s2, more);
    SameClients(s2, j, s3);
    acts := acts + more;
    LeftBehind(f, s3, i, j);
    OneAction(f, s3, Disconnection(i, false));
    s := Apply(f, s3, Disconnection(i, false));
    ReachedThen(f, tasks, rets, m, acts, s3, [Disconnection(i, false)]);
    acts := acts + [Disconnection(i, false)];
    ReachedInv(f, tasks, rets, m, acts, s);
    StuckExactly(f, s);
  }
}
