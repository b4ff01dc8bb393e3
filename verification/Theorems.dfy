/**
 * What every run of the cluster guarantees, whatever connects, dies and disconnects.
 */
module Theorems {
  import opened Config
  import opened ServerModel
  import opened ServerInvariant
  import opened Dispatch
  import opened ClientModel
  import opened Cluster
  import opened SessionInvariant
  import opened ClusterInvariant

  // ---------- runs ----------

  lemma {:induction false} RunKeeps<T, R>(f: T -> R, s: Cluster<T, R>, acts: seq<Action<T, R>>)
    requires ClusterInv(f, s) && IsRun(f, s, acts)
    ensures ClusterInv(f, After(f, s, acts)) && Extends(s.server, After(f, s, acts).server)
    decreases |acts|
  {
    hide ClusterInv, Extends, Apply, Enabled;
    if acts == [] {
      ExtendsItself(f, s);
    } else {
      StepKeeps(f, s, acts[0]);
      var s1 := Apply(f, s, acts[0]);
      RunKeeps(f, s1, acts[1..]);
      ExtendsVia(s.server, s1.server, After(f, s1, acts[1..]).server);
    }
  }

  lemma ExtendsItself<T, R>(f: T -> R, s: Cluster<T, R>)
    requires ClusterInv(f, s)
    ensures Extends(s.server, s.server)
  {
    hide Inv, AllLinked;
    SameResults(f, s.server, s.server);
  }

  /** Adding one enabled action in front of a run. */
  lemma ConsRun<T, R>(f: T -> R, s: Cluster<T, R>, a: Action<T, R>, rest: seq<Action<T, R>>)
    requires Enabled(s, a) && IsRun(f, Apply(f, s, a), rest)
    ensures IsRun(f, s, [a] + rest) && After(f, s, [a] + rest) == After(f, Apply(f, s, a), rest)
  {
    hide Enabled, Apply;
    assert ([a] + rest)[1..] == rest;
  }

  lemma OneAction<T, R>(f: T -> R, s: Cluster<T, R>, a: Action<T, R>)
    requires Enabled(s, a)
    ensures IsRun(f, s, [a]) && After(f, s, [a]) == Apply(f, s, a)
  {
    assert [a][1..] == [];
  }

  /** One run after another. */
  lemma {:induction false} AppendRun<T, R>(f: T -> R, s: Cluster<T, R>, acts: seq<Action<T, R>>, more: seq<Action<T, R>>)
    requires IsRun(f, s, acts) && IsRun(f, After(f, s, acts), more)
    ensures IsRun(f, s, acts + more) && After(f, s, acts + more) == After(f, After(f, s, acts), more)
    decreases |acts|
  {
    hide Enabled, Apply;
    if acts == [] {
      assert acts + more == more;
    } else {
      AppendRun(f, Apply(f, s, acts[0]), acts[1..], more);
      assert (acts + more)[1..] == acts[1..] + more;
    }
  }

  /** A state some run from the initial state leads to. */
  ghost predicate Reached<T, R>(f: T -> R, tasks: seq<T>, rets: seq<R>, maxClients: nat,
                                acts: seq<Action<T, R>>, s: Cluster<T, R>) {
    && |rets| == |tasks| && maxClients > 0
    && IsRun(f, InitCluster(tasks, rets, maxClients), acts)
    && s == After(f, InitCluster(tasks, rets, maxClients), acts)
  }

  lemma ReachedInv<T, R>(f: T -> R, tasks: seq<T>, rets: seq<R>, maxClients: nat,
                         acts: seq<Action<T, R>>, s: Cluster<T, R>)
    requires Reached(f, tasks, rets, maxClients, acts, s)
    ensures ClusterInv(f, s) && s.server.tasks == tasks && |s.server.rets| == |rets|
  {
    InitClusterInv(f, tasks, rets, maxClients);
    RunKeeps(f, InitCluster(tasks, rets, maxClients), acts);
    hide ClusterInv, IsRun, After;
  }

  /** What the counters, the hint and the connection table say in any reachable state. */
  lemma ReachedTables<T, R>(f: T -> R, tasks: seq<T>, rets: seq<R>, maxClients: nat,
                            acts: seq<Action<T, R>>, s: Cluster<T, R>)
    requires Reached(f, tasks, rets, maxClients, acts, s)
    ensures var v := s.server;
      && v.numNotResolved == |PendingFrom(v.status, 0)|
      && v.numCompleted == multiset(v.status)[Completed]
      && (forall t :: 0 <= t < |v.status| && v.status[t] == NotResolved ==> v.hint <= t)
      && v.numClients == |set i: nat | i < |v.conns| && v.conns[i].open|
      && (v.listening <==> v.numClients < |v.conns|)
      && |v.conns| == |s.sessions|
      && (forall i :: 0 <= i < |v.conns| ==> (s.sessions[i].Open? <==> v.conns[i].open))
  {
    ReachedInv(f, tasks, rets, maxClients, acts, s);
    PendingCount(s.server.status, 0);
    assert s.server.status[0..] == s.server.status;
    OpenCountIsSize(s.server.conns);
    assert OpenCells(s.server.conns) == set i: nat | i < |s.server.conns| && s.server.conns[i].open;
    SameLength(f, s);
    forall i | 0 <= i < |s.server.conns| ensures s.sessions[i].Open? <==> s.server.conns[i].open {
      OpenIff(f, s, i);
    }
    hide AllLinked, Correct, LoopSound, History, AbortSound, CellsMatch;
  }

  // ---------- the distributed map ----------

  function SequentialMap<T, R>(f: T -> R, tasks: seq<T>): seq<R> {
    seq(|tasks|, t requires 0 <= t < |tasks| => f(tasks[t]))
  }

  /** In every reachable state each finished task carries the right value, and a server that
      left its event loop has computed exactly the sequential map, whatever died on the way. */
  lemma DistributedMap<T, R>(f: T -> R, tasks: seq<T>, rets: seq<R>, maxClients: nat,
                             acts: seq<Action<T, R>>, s: Cluster<T, R>)
    requires Reached(f, tasks, rets, maxClients, acts, s)
    ensures |s.server.status| == |s.server.rets| == |tasks|
    ensures forall t :: 0 <= t < |tasks| && s.server.status[t] == Completed ==> s.server.rets[t] == f(tasks[t])
    ensures s.phase == Finished ==> s.server.rets == SequentialMap(f, tasks)
  {
    ReachedInv(f, tasks, rets, maxClients, acts, s);
    AllCompleted(s.server.status);
    hide AllLinked, History, LoopSound, CellsMatch, IsRun, After;
  }

  /** A finished task is never reopened and its result never rewritten later in the run. */
  lemma CompletedIsFinal<T, R>(f: T -> R, s: Cluster<T, R>, acts: seq<Action<T, R>>, t: nat)
    requires ClusterInv(f, s) && IsRun(f, s, acts)
    requires t < |s.server.status| && s.server.status[t] == Completed
    ensures var w := After(f, s, acts).server;
      && t < |w.status| && t < |w.rets| && t < |s.server.rets|
      && w.status[t] == Completed && w.rets[t] == s.server.rets[t]
  {
    hide ClusterInv, IsRun, After;
    RunKeeps(f, s, acts);
  }

  // ---------- where a task is ----------

  /** How often task t occurs at connection i, over all four places it can be. */
  ghost function Occurrences<T, R>(c: Conn, x: Session<T, R>, t: nat): nat
    requires x.Open? && (c.sending == NO_TASK || 0 <= c.sending < |c.cells|)
  {
    SendingTask(c)[t as int] + multiset(Ids(x.down))[t as int]
      + Held(SlotIds(x.client.slots))[t as int] + Held(ResultIds(x.up))[t as int]
  }

  /** A task being resolved is in exactly one place of exactly one connection; a task that is
      pending or finished is in none. */
  lemma UniqueLocation<T, R>(f: T -> R, s: Cluster<T, R>, i: nat, t: nat)
    requires ClusterInv(f, s) && i < |s.sessions| && s.sessions[i].Open?
    ensures i < |s.server.conns|
    ensures var c, x := s.server.conns[i], s.sessions[i];
      && (c.sending == NO_TASK || 0 <= c.sending < |c.cells|)
      && Occurrences(c, x, t) == Held(c.cells)[t as int] <= 1
      && (Occurrences(c, x, t) == 1 ==>
            && t < |s.server.status| && s.server.status[t] == Resolving
            && forall j :: 0 <= j < |s.server.conns| && j != i ==> t as int !in Held(s.server.conns[j].cells))
  {
    hide Inv, AllLinked, Correct, LoopSound, History, AbortSound;
    OpenIff(f, s, i);
    if t as int in Held(s.server.conns[i].cells) {
      HeldIsResolving(s.server, i, t);
    }
  }

  /** Conversely, a task being resolved is somewhere, at a connection that is still open. */
  lemma ResolvingIsSomewhere<T, R>(f: T -> R, s: Cluster<T, R>, t: nat)
    requires ClusterInv(f, s) && t < |s.server.status| && s.server.status[t] == Resolving
    ensures exists i :: 0 <= i < |s.sessions| == |s.server.conns| && s.sessions[i].Open? && t as int in Held(s.server.conns[i].cells)
  {
    hide AllLinked, Correct, LoopSound, History, AbortSound;
    assert AllHeld(s.server.conns)[t as int] == ResolvingCount(s.server.status, t);
    var i := HolderOf(s.server.conns, t);
    HeldIsResolving(s.server, i, t);
    SameLength(f, s);
    OpenIff(f, s, i);
  }

  lemma {:induction false} HolderOf(conns: seq<Conn>, t: nat) returns (i: nat)
    requires t as int in AllHeld(conns)
    ensures i < |conns| && t as int in Held(conns[i].cells)
  {
    if t as int in Held(conns[0].cells) {
      i := 0;
    } else {
      i := HolderOf(conns[1..], t);
      i := i + 1;
    }
  }

  /** The threads of a client are always fully accounted for: each is a request not yet sent,
      a frame on its way, a request the server holds open, or a busy entry of the table. To the
      server travel requests, with a number that is no task's, and results; to the client tasks. */
  lemma TokenConservation<T, R>(f: T -> R, s: Cluster<T, R>, i: nat)
    requires ClusterInv(f, s) && i < |s.sessions| && s.sessions[i].Open?
    ensures i < |s.server.conns|
    ensures var c, x := s.server.conns[i], s.sessions[i];
      && x.client.initial + |x.up| + c.requested + |x.down| + |Held(SlotIds(x.client.slots))| == |x.client.slots|
      && (forall k :: 0 <= k < |x.up| ==> x.up[k].cmd == 2 || (x.up[k].cmd == 3 && x.up[k].id < |s.server.tasks|))
      && (forall k :: 0 <= k < |x.up| && x.up[k].cmd == 2 ==> x.up[k].id == 0xFFFF_FFFF)
      && (forall k :: 0 <= k < |x.down| ==> x.down[k].cmd == 4 && x.down[k].id < |s.server.tasks|)
  {
    hide Inv, AllLinked, Correct, LoopSound, History, AbortSound, Held;
    OpenIff(f, s, i);
    var x := s.sessions[i];
    forall k | 0 <= k < |x.up|
      ensures x.up[k].cmd == 2 || (x.up[k].cmd == 3 && x.up[k].id < |s.server.tasks|)
      ensures x.up[k].cmd == 2 ==> x.up[k].id == 0xFFFF_FFFF
    {
      assert UpFrame(f, s.server.tasks, x.up[k]);
    }
    forall k | 0 <= k < |x.down| ensures x.down[k].cmd == 4 && x.down[k].id < |s.server.tasks| {
      assert Truthful(s.server.tasks, x.down[k]);
    }
  }

  // ---------- checks that never fire ----------

  /** A task frame always finds a free thread: the "spare computation task" exit is dead. */
  lemma NoSpareTask<T, R>(f: T -> R, s: Cluster<T, R>, i: nat)
    requires ClusterInv(f, s) && Guard(s, ClientReceive(i))
    ensures StartComputation(s.sessions[i].client, s.sessions[i].down[0].id, s.sessions[i].down[0].payload).Some?
  {
    hide ClusterInv, Live;
    OpenIff(f, s, i);
    ClientReceiveLive(f, s.server.tasks, s.server.conns[i], s.sessions[i]);
  }

  /** Whatever can happen stays within all arrays and counters. */
  lemma AlwaysInBounds<T, R>(f: T -> R, s: Cluster<T, R>, a: Action<T, R>)
    requires ClusterInv(f, s) && Guard(s, a)
    ensures InBounds(s, a)
  {
    hide Inv, AllLinked, Correct, Live, History, AbortSound, CanIterate;
    SameLength(f, s);
    match a
    case ServerReceive(i) =>
      OpenIff(f, s, i);
      if s.sessions[i].up[0].cmd == CMD_RESULT {
        ResultIsExpected(f, s.server.tasks, s.server.conns[i], s.sessions[i]);
      }
    case Disconnection(i, _) => OpenIff(f, s, i);
    case SendTask(_) => CanIterateInv(s.server, s.loop);
    case _ =>
  }

  /** No connected client has more threads than its task list on the server has cells. */
  ghost predicate ThreadsFit<T, R>(sessions: seq<Session<T, R>>) {
    forall i :: 0 <= i < |sessions| && sessions[i].Open? ==> |sessions[i].client.slots| <= 16
  }

  /** With at most sixteen threads per client the server never runs out of cells, and a result
      or command it does not know never arrives; a server that exited met a request it had no
      task for, or a connection it had no cell for. */
  lemma WhyTheServerAborts<T, R>(f: T -> R, tasks: seq<T>, rets: seq<R>, maxClients: nat,
                                 acts: seq<Action<T, R>>, s: Cluster<T, R>, why: Abort)
    requires Reached(f, tasks, rets, maxClients, acts, s) && s.phase == Aborted(why) && ThreadsFit(s.sessions)
    ensures (why == GreedyClient && s.server.numNotResolved == 0)
         || (why == NoFreeConnection && s.server.numClients == |s.server.conns|)
  {
    ReachedInv(f, tasks, rets, maxClients, acts, s);
    hide Inv, AllLinked, Correct, LoopSound, History, IsRun, After;
  }

  // ---------- conservation over whole runs ----------

  /** Every assignment ended in a result, is still under way, or was undone by a disconnect;
      so disconnects bound the work that is repeated. */
  lemma AssignmentBudget<T, R>(f: T -> R, tasks: seq<T>, rets: seq<R>, maxClients: nat,
                               acts: seq<Action<T, R>>, s: Cluster<T, R>)
    requires Reached(f, tasks, rets, maxClients, acts, s)
    ensures s.handedOut == s.server.numCompleted + multiset(s.server.status)[Resolving] + s.returned
    ensures s.handedOut <= |tasks| + 16 * s.disconnects
  {
    ReachedInv(f, tasks, rets, maxClients, acts, s);
    AllCompleted(s.server.status);
    hide AllLinked, Correct, LoopSound, CellsMatch, IsRun, After;
  }
}
