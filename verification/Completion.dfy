/**
 * Which runs without disconnects can still be completed. Whether the computation can be
 * finished from here is decided by one comparison on the server's tables: some connection
 * must have no more open requests than there are pending tasks. Serving any other connection
 * makes the server exit.
 */
module Completion {
  import opened Config
  import opened ServerModel
  import opened ServerInvariant
  import opened ClientModel
  import opened Cluster
  import opened SessionInvariant
  import opened ClusterInvariant
  import opened Theorems
  import opened Progress
  import opened RequestBudget

  // ---------- the condition ----------

  /** What may happen: no disconnect, and new clients only if `newcomers` says so. */
  predicate Permitted<T, R>(a: Action<T, R>, newcomers: bool) {
    Calm(a) && (a.Connect? ==> newcomers)
  }

  /** All open requests of connection i can be answered. */
  predicate Servable<T, R>(v: Server<T, R>, i: int) {
    && 0 <= i < |v.conns| && v.conns[i].open
    && v.conns[i].requested <= v.numNotResolved + (if v.conns[i].sending == NO_TASK then 0 else 1)
  }

  /** Inside a send loop that connection counts; between handlers any one will do, and so will
      a free cell if new clients may come. */
  ghost predicate Finishable<T, R>(s: Cluster<T, R>, newcomers: bool) {
    if s.loop >= 0 then Servable(s.server, s.loop)
    else
      || s.server.numNotResolved == 0
      || (exists i :: Servable(s.server, i))
      || (newcomers && s.server.numClients < |s.server.conns|)
  }

  /** The run is enabled, permitted, and takes the server out of its event loop normally. */
  ghost predicate Finishes<T, R>(f: T -> R, s: Cluster<T, R>, newcomers: bool, acts: seq<Action<T, R>>) {
    && IsRun(f, s, acts)
    && (forall k :: 0 <= k < |acts| ==> Permitted(acts[k], newcomers))
    && After(f, s, acts).phase == Finished
  }

  // ---------- what single steps do to the tables ----------

  /** Only the send loop and accept touch pending tasks, clients and tasks in hand. */
  lemma QuietStep<T, R>(f: T -> R, s: Cluster<T, R>, a: Action<T, R>)
    requires CalmInv(f, s) && Enabled(s, a) && Calm(a)
    requires !a.Connect? && !a.SendTask? && !a.Writable? && !a.Finish?
    ensures var s' := Apply(f, s, a);
      && s'.phase == Running && s'.loop == s.loop
      && s'.server.numNotResolved == s.server.numNotResolved && s'.server.numClients == s.server.numClients
      && a.conn < |s.server.conns| && OthersSame(s.server.conns, a.conn, s'.server.conns)
      && forall i :: 0 <= i < |s.server.conns| ==>
           var c, c' := s.server.conns[i], s'.server.conns[i];
           && c'.open == c.open && c'.sending == c.sending
           && c'.requested == c.requested + (if a == ServerReceive(i) then 1 else 0)
           && c'.armed == (c.armed || (a == ServerReceive(i) && s.server.numNotResolved != 0))
  {
    hide Inv, Live, AllLinked, Correct, History, AbortSound, Held, LoopSound, ArmedForWork;
    if a.ServerReceive? {
      ReceivedFrame(f, s, a.conn);
      ArmedReceive(s.server, a.conn, s.sessions[a.conn].up[0]);
      SameLength(f, s);
    } else {
      ClientStepKeeps(f, s, a);
      SameLength(f, s);
    }
  }

  /** One iteration of the send loop, told by its counters. */
  lemma LoopStep<T, R>(f: T -> R, s: Cluster<T, R>, o: SendOutcome)
    requires CalmInv(f, s) && Enabled(s, SendTask(o)) && o != Broken
    ensures var s' := Apply(f, s, SendTask(o));
      var i, v, w := s.loop, s.server, s'.server;
      && 0 <= i < |v.conns| == |w.conns| && v.conns[i].open && v.conns[i].requested > 0
      && var hand := v.conns[i].sending != NO_TASK;
      && (!hand && v.numNotResolved == 0 <==> s'.phase == Aborted(GreedyClient))
      && (s'.phase == Running || s'.phase.Aborted?)
      && (s'.phase == Running ==>
            && w.conns[i].open && w.numNotResolved == v.numNotResolved - (if hand then 0 else 1) >= 0
            && OthersSame(v.conns, i, w.conns) && w.numClients == v.numClients
            && (o == Sent ==>
                  && !w.conns[i].armed && w.conns[i].sending == NO_TASK && w.conns[i].requested == v.conns[i].requested - 1
                  && s'.loop == if w.conns[i].requested == 0 then IDLE else i)
            && (o == NotReady ==>
                  w.conns[i].sending != NO_TASK && w.conns[i].requested == v.conns[i].requested && s'.loop == i))
  {
    hide Inv, Live, AllLinked, Correct, History, AbortSound, Held, ArmedForWork, TakeTask;
    SameLength(f, s);
    LoopOpen(s.server.conns, s.loop);
    TakeCounters(s.server, s.loop);
    SendOthers(s.server, s.loop, o);
  }

  /** Taking a task lowers the number of pending ones unless a task was in hand. */
  lemma TakeCounters<T, R>(v: Server<T, R>, i: nat)
    requires Inv(v) && i < |v.conns| && v.conns[i].open && CanIterate(v, i)
    ensures var hand := v.conns[i].sending != NO_TASK;
      && (!hand && v.numNotResolved == 0 <==> TakeTask(v, i).Greedy?)
      && (TakeTask(v, i).Got? ==>
            var w := TakeTask(v, i).server;
            && |w.conns| == |v.conns| && w.numClients == v.numClients
            && w.conns[i].open && w.conns[i].sending != NO_TASK
            && w.conns[i].requested == v.conns[i].requested
            && w.numNotResolved == v.numNotResolved - (if hand then 0 else 1) >= 0)
  {
    hide AllHeld, Held, CellsMatch, Counted, LeastFrom, IndexOf;
    TakeTaskInv(v, i);
    NotNegative(v);
  }

  lemma NotNegative<T, R>(v: Server<T, R>)
    requires Inv(v)
    ensures v.numNotResolved >= 0
    ensures v.numNotResolved > 0 ==> v.numCompleted < |v.tasks|
  {
    AllCompleted(v.status);
    hide CellsMatch, ConnShape;
  }

  /** A servable connection with room in its task list does not make the server exit. */
  lemma LoopGoesOn<T, R>(f: T -> R, s: Cluster<T, R>, o: SendOutcome)
    requires CalmInv(f, s) && Enabled(s, SendTask(o)) && o != Broken
    requires ThreadsFit(s.sessions) && Servable(s.server, s.loop)
    ensures Apply(f, s, SendTask(o)).phase == Running
  {
    hide Inv, Live, AllLinked, Correct, History, AbortSound, Held, ArmedForWork;
    SameLength(f, s);
    LoopOpen(s.server.conns, s.loop);
    OpenIff(f, s, s.loop);
    TakeTaskInv(s.server, s.loop);
    if TakeTask(s.server, s.loop).NoRoom? {
      TooManyThreads(f, s, s.loop);
    }
  }

  // ---------- the condition is sufficient ----------

  /** The connection to attend to between handlers, and whether it is ready to be served. */
  lemma Choose<T, R>(f: T -> R, s: Cluster<T, R>) returns (j: nat, ready: bool)
    requires CalmInv(f, s) && s.phase == Running && s.loop == IDLE && Finishable(s, false)
    requires s.server.numCompleted < |s.server.tasks|
    ensures j < |s.sessions| == |s.server.conns|
    ensures s.server.numNotResolved > 0 ==> Servable(s.server, j)
    ensures ready ==> s.server.numNotResolved > 0 && Guard(s, Writable(j))
    ensures !ready ==> !Quiet(s.sessions[j]) && (s.server.numNotResolved > 0 ==> s.server.conns[j].requested == 0)
    ensures s.server.numNotResolved >= 0
  {
    hide Inv, Live, AllLinked, Correct, History, AbortSound, Quiet;
    SameLength(f, s);
    NotNegative(s.server);
    ready := false;
    if s.server.numNotResolved > 0 {
      j :| Servable(s.server, j);
      OpenIff(f, s, j);
      ready := s.server.conns[j].requested > 0;
      if Quiet(s.sessions[j]) {
        QuietSession(f, s.server.tasks, s.server.conns[j], s.sessions[j]);
      }
    } else if exists k :: 0 <= k < |s.sessions| && !Quiet(s.sessions[k]) {
      j :| 0 <= j < |s.sessions| && !Quiet(s.sessions[j]);
    } else {
      QuietServer(f, s);
    }
  }

  /** Between handlers: serve the chosen connection, or let its client go on until it asks. */
  lemma IdleNext<T, R>(f: T -> R, s: Cluster<T, R>) returns (a: Action<T, R>)
    requires CalmInv(f, s) && s.phase == Running && s.loop == IDLE && Finishable(s, false)
    requires s.server.numCompleted < |s.server.tasks|
    ensures Productive(a) && Enabled(s, a)
    ensures Apply(f, s, a).phase == Running && Finishable(Apply(f, s, a), false)
  {
    hide CalmInv, Quiet, Apply, InBounds, Finishable, Guard, ClusterInv;
    CalmFacts(f, s);
    var j, ready := Choose(f, s);
    if ready {
      a := Writable(j);
      AlwaysInBounds(f, s, a);
      WritableStep(f, s, j);
    } else {
      SomeTask(f, s);
      a := BusySession(f, s, j, s.server.rets[0]);
      AlwaysInBounds(f, s, a);
      QuietStep(f, s, a);
    }
    StillFinishable(s, Apply(f, s, a), j);
  }

  lemma StillFinishable<T, R>(s: Cluster<T, R>, s': Cluster<T, R>, j: nat)
    requires s.loop == IDLE && s'.server.numNotResolved == s.server.numNotResolved >= 0
    requires s'.loop == j || (s'.loop == IDLE && (s.server.numNotResolved > 0 ==> Servable(s'.server, j)))
    requires s'.loop == j ==> Servable(s'.server, j)
    ensures Finishable(s', false)
  {
  }

  /** Inside the send loop: serve one more request. */
  lemma LoopNext<T, R>(f: T -> R, s: Cluster<T, R>) returns (a: Action<T, R>)
    requires CalmInv(f, s) && s.phase == Running && s.loop >= 0 && ThreadsFit(s.sessions) && Finishable(s, false)
    ensures Productive(a) && Enabled(s, a)
    ensures Apply(f, s, a).phase == Running && Finishable(Apply(f, s, a), false)
  {
    hide CalmInv, Apply, InBounds, ThreadsFit, ClusterInv;
    CalmFacts(f, s);
    a := SendTask(Sent);
    AlwaysInBounds(f, s, a);
    LoopGoesOn(f, s, Sent);
    LoopStep(f, s, Sent);
    assert Servable(Apply(f, s, a).server, s.loop);
  }

  lemma WritableStep<T, R>(f: T -> R, s: Cluster<T, R>, j: nat)
    requires Enabled(s, Writable(j))
    ensures Apply(f, s, Writable(j)) == s.(loop := j)
  {
  }

  lemma CalmFacts<T, R>(f: T -> R, s: Cluster<T, R>)
    requires CalmInv(f, s)
    ensures ClusterInv(f, s) && Inv(s.server) && s.loop >= IDLE && AllAlive(s.sessions)
  {
    hide Inv, AllLinked, Correct, History, AbortSound;
  }

  /** Actions leading from a finishable state to the normal end of the event loop. */
  lemma {:induction false} Finishing<T, R>(f: T -> R, s: Cluster<T, R>) returns (acts: seq<Action<T, R>>)
    requires CalmInv(f, s) && s.phase == Running && ThreadsFit(s.sessions) && Finishable(s, false)
    ensures Finishes(f, s, false, acts) && |s.sessions| == |s.server.conns| && |acts| <= Measure(s) + 1
    decreases Measure(s)
  {
    hide CalmInv, ClusterInv, Apply, Measure, Productive, ThreadsFit, Finishable, Finishes, InBounds;
    CalmFacts(f, s);
    MeasureNatural(f, s);
    CompletedBound(f, s);
    if s.loop >= 0 || s.server.numCompleted < |s.server.tasks| {
      var a: Action<T, R>;
      if s.loop >= 0 {
        a := LoopNext(f, s);
      } else {
        a := IdleNext(f, s);
      }
      CalmProductive(a);
      CalmStep(f, s, a);
      ThreadsKept(f, s, a);
      MeasureDrops(f, s, a);
      MeasureNatural(f, Apply(f, s, a));
      var rest := Finishing(f, Apply(f, s, a));
      acts := [a] + rest;
      FirstThen(f, s, a, rest, false);
    } else {
      acts := [Finish];
      AlwaysInBounds(f, s, Finish);
      FinishNow(f, s, false);
    }
  }

  lemma FirstThen<T, R>(f: T -> R, s: Cluster<T, R>, a: Action<T, R>, rest: seq<Action<T, R>>, newcomers: bool)
    requires Enabled(s, a) && Permitted(a, newcomers) && Finishes(f, Apply(f, s, a), newcomers, rest)
    ensures Finishes(f, s, newcomers, [a] + rest)
  {
    hide Enabled, Apply, Permitted, IsRun, After;
    ConsRun(f, s, a, rest);
  }

  lemma FinishNow<T, R>(f: T -> R, s: Cluster<T, R>, newcomers: bool)
    requires Enabled(s, Finish)
    ensures Finishes(f, s, newcomers, [Finish])
  {
    FinishStep(f, s);
    var acts: seq<Action<T, R>> := [Finish];
    assert acts[0] == Finish && acts[1..] == [];
    assert IsRun(f, Apply(f, s, Finish), []);
  }

  lemma FinishStep<T, R>(f: T -> R, s: Cluster<T, R>)
    requires Enabled(s, Finish)
    ensures Apply(f, s, Finish) == s.(phase := Finished)
  {
  }

  /** With nothing servable but a free cell, one new client with a single thread is enough. */
  lemma Newcomer<T, R>(f: T -> R, s: Cluster<T, R>) returns (a: Action<T, R>)
    requires CalmInv(f, s) && s.phase == Running && s.loop == IDLE && ThreadsFit(s.sessions)
    requires s.server.numNotResolved > 0 && s.server.numClients < |s.server.conns|
    ensures Permitted(a, true) && Enabled(s, a)
    ensures var s' := Apply(f, s, a); s'.phase == Running && ThreadsFit(s'.sessions) && Finishable(s', false)
  {
    hide Inv, Live, AllLinked, Correct, History, AbortSound, ArmedForWork, LoopSound;
    NotNegative(s.server);
    SomeTask(f, s);
    SameLength(f, s);
    AcceptInv(s.server);
    a := Connect(OneThread(s.server.tasks[0], s.server.rets[0]));
    assert Servable(Apply(f, s, a).server, Accept(s.server).conn);
  }

  /** A finishable state can be finished. */
  lemma CanFinish<T, R>(f: T -> R, s: Cluster<T, R>, newcomers: bool) returns (acts: seq<Action<T, R>>)
    requires CalmInv(f, s) && s.phase == Running && ThreadsFit(s.sessions) && Finishable(s, newcomers)
    ensures Finishes(f, s, newcomers, acts)
  {
    hide CalmInv, Apply, ThreadsFit, Servable, Enabled, IsRun, After;
    CalmFacts(f, s);
    NotNegative(s.server);
    if Finishable(s, false) {
      acts := Finishing(f, s);
    } else {
      var a := Newcomer(f, s);
      CalmStep(f, s, a);
      acts := Finishing(f, Apply(f, s, a));
      FirstThen(f, s, a, acts, true);
      acts := [a] + acts;
    }
  }

  // ---------- the condition is necessary ----------

  /** No permitted action makes an unfinishable state finishable, or leaves the event loop in it. */
  lemma UnfinishableStep<T, R>(f: T -> R, s: Cluster<T, R>, a: Action<T, R>, newcomers: bool)
    requires CalmInv(f, s) && Enabled(s, a) && Permitted(a, newcomers) && !Finishable(s, newcomers)
    ensures var s' := Apply(f, s, a);
      s'.phase != Finished && (s'.phase == Running ==> !Finishable(s', newcomers))
  {
    hide ClusterInv, ArmedForWork, AllAlive, Apply, InBounds;
    CalmFacts(f, s);
    NotNegative(s.server);
    if a.Connect? {
      FullTable(f, s, a);
    } else if a.Writable? {
      WritableStep(f, s, a.conn);
      InHandOnlyInLoop(f, s, a.conn);
    } else if a.SendTask? {
      LoopStep(f, s, a.answer);
    } else if !a.Finish? {
      QuietStep(f, s, a);
      forall i ensures !Servable(Apply(f, s, a).server, i) || s.loop >= 0 {
        assert !Servable(s.server, i) || s.loop >= 0;
      }
    }
  }

  lemma FullTable<T, R>(f: T -> R, s: Cluster<T, R>, a: Action<T, R>)
    requires ClusterInv(f, s) && Enabled(s, a) && a.Connect? && s.server.numClients >= |s.server.conns|
    ensures Apply(f, s, a).phase == Aborted(NoFreeConnection)
  {
    hide AllLinked, Correct, History, AbortSound, LoopSound;
    AcceptInv(s.server);
  }

  lemma InHandOnlyInLoop<T, R>(f: T -> R, s: Cluster<T, R>, i: nat)
    requires ClusterInv(f, s) && Enabled(s, Writable(i))
    ensures i < |s.server.conns| && s.server.conns[i].open && s.server.conns[i].sending == NO_TASK
  {
    hide Inv, Correct, History, AbortSound, Live;
    OpenIff(f, s, i);
    IdleSending(s.server.conns, i);
  }

  lemma {:induction false} CannotFinish<T, R>(f: T -> R, s: Cluster<T, R>, newcomers: bool, acts: seq<Action<T, R>>)
    requires CalmInv(f, s) && s.phase == Running && !Finishable(s, newcomers)
    ensures !Finishes(f, s, newcomers, acts)
    decreases |acts|
  {
    hide CalmInv, Apply, Finishable, InBounds;
    if acts != [] && Finishes(f, s, newcomers, acts) {
      var s1 := Apply(f, s, acts[0]);
      UnfinishableStep(f, s, acts[0], newcomers);
      CalmStep(f, s, acts[0]);
      var rest := acts[1..];
      assert forall k :: 0 <= k < |rest| ==> rest[k] == acts[k + 1];
      assert Finishes(f, s1, newcomers, rest);
      if s1.phase == Running {
        CannotFinish(f, s1, newcomers, rest);
      }
    }
  }

  // ---------- exactly when ----------

  /** Whether a run without disconnects can be completed from here, in the eyes of the server. */
  lemma FinishExactly<T, R>(f: T -> R, s: Cluster<T, R>, newcomers: bool)
    requires CalmInv(f, s) && s.phase == Running && ThreadsFit(s.sessions)
    ensures Finishable(s, newcomers) <==> exists acts :: Finishes(f, s, newcomers, acts)
  {
    hide CalmInv, ThreadsFit, Finishable, Finishes;
    if Finishable(s, newcomers) {
      var acts := CanFinish(f, s, newcomers);
    } else {
      forall acts ensures !Finishes(f, s, newcomers, acts) {
        CannotFinish(f, s, newcomers, acts);
      }
    }
  }

  lemma FinishedResults<T, R>(f: T -> R, s: Cluster<T, R>, newcomers: bool, acts: seq<Action<T, R>>)
    requires ClusterInv(f, s) && Finishes(f, s, newcomers, acts)
    ensures After(f, s, acts).server.rets == SequentialMap(f, s.server.tasks)
  {
    var e := After(f, s, acts);
    hide IsRun, After;
    RunKeeps(f, s, acts);
    AllCompleted(e.server.status);
    hide AllLinked, History, LoopSound, CellsMatch, ConnShape;
  }

  /** Between handlers no task is in hand, so requests are compared with pending tasks alone. */
  lemma ServableBetweenHandlers<T, R>(f: T -> R, s: Cluster<T, R>)
    requires ClusterInv(f, s) && s.loop == IDLE
    ensures |s.sessions| == |s.server.conns|
    ensures forall i :: Servable(s.server, i) <==>
              0 <= i < |s.sessions| && s.sessions[i].Open? && s.server.conns[i].requested <= s.server.numNotResolved
  {
    hide Inv, Correct, History, AbortSound, Live;
    SameLength(f, s);
    forall i | 0 <= i < |s.sessions| ensures s.sessions[i].Open? <==> s.server.conns[i].open {
      OpenIff(f, s, i);
    }
  }

  /** Between handlers of any calm run: the computation can be completed exactly if nothing is
      pending or some connected client has asked for no more than is pending, and, where new
      clients may still come, also if the table has a free cell. The results are then those of
      the sequential map. */
  lemma CompletableExactly<T, R>(f: T -> R, tasks: seq<T>, rets: seq<R>, maxClients: nat,
                                 acts: seq<Action<T, R>>, s: Cluster<T, R>, newcomers: bool)
    requires Reached(f, tasks, rets, maxClients, acts, s) && forall k :: 0 <= k < |acts| ==> Calm(acts[k])
    requires s.phase == Running && s.loop == IDLE && ThreadsFit(s.sessions)
    ensures |s.sessions| == |s.server.conns|
    ensures (exists more :: Finishes(f, s, newcomers, more)) <==>
              || s.server.numNotResolved == 0
              || (exists i :: 0 <= i < |s.sessions| && s.sessions[i].Open?
                              && s.server.conns[i].requested <= s.server.numNotResolved)
              || (newcomers && s.server.numClients < |s.server.conns|)
    ensures forall more :: Finishes(f, s, newcomers, more) ==> After(f, s, more).server.rets == SequentialMap(f, tasks)
  {
    hide IsRun, After, ThreadsFit, ClusterInv;
    InitCalm(f, tasks, rets, maxClients);
    CalmRunKeeps(f, InitCluster(tasks, rets, maxClients), acts);
    FinishExactly(f, s, newcomers);
    ReachedInv(f, tasks, rets, maxClients, acts, s);
    ServableBetweenHandlers(f, s);
    forall more | Finishes(f, s, newcomers, more) ensures After(f, s, more).server.rets == SequentialMap(f, tasks) {
      FinishedResults(f, s, newcomers, more);
    }
  }
}
