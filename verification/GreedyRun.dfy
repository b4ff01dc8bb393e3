/**
 * The "greedy client" exit is reachable with well-behaved clients and without a single
 * disconnect: one task, two clients with one thread each, a table of any size from two on.
 */
module GreedyRun {
  import opened Config
  import opened ServerModel
  import opened ClientModel
  import opened Cluster
  import opened Theorems
  import opened Progress

  /** Adding one enabled action at the end of a run. */
  lemma {:induction false} Snoc<T, R>(f: T -> R, s: Cluster<T, R>, acts: seq<Action<T, R>>, a: Action<T, R>)
    requires IsRun(f, s, acts) && Enabled(After(f, s, acts), a)
    ensures IsRun(f, s, acts + [a]) && After(f, s, acts + [a]) == Apply(f, After(f, s, acts), a)
    decreases |acts|
  {
    hide Enabled, Apply;
    if acts == [] {
      assert [a][1..] == [];
    } else {
      Snoc(f, Apply(f, s, acts[0]), acts[1..], a);
      assert (acts + [a])[1..] == acts[1..] + [a];
    }
  }

  function Waiting<T, R>(x: T, r: R): Client<T, R> {
    OneThread<T, R>(x, r).(initial := 0, armed := false)
  }

  /** A connection between handlers with an empty task list. */
  function IdleConn(requested: nat): Conn {
    Conn(true, requested, NO_TASK, EmptyCells(), true)
  }

  /** The first `used` cells of the connection table taken, the others free. */
  function Conns(m: nat, used: nat): seq<Conn> {
    seq(m, k => if k < used then IdleConn(0) else ClosedConn())
  }

  function Sessions<T, R>(x: T, r: R, m: nat, used: nat): seq<Session<T, R>> {
    seq(m, k => if k < used then Open(OneThread(x, r), true, [], []) else Closed)
  }

  /** One pending task, and the first `used` clients connected. */
  function Stage<T, R>(x: T, r: R, m: nat, used: nat): Cluster<T, R> {
    Cluster(Server([x], [r], [NotResolved], 1, 0, 0, Conns(m, used), used, used < m),
            Sessions(x, r, m, used), Running, IDLE, 0, 0, 0)
  }

  /** A state reached from one pending task and a table of m, without any disconnect. */
  ghost predicate CalmlyReached<T, R>(f: T -> R, x: T, r: R, m: nat, acts: seq<Action<T, R>>, s: Cluster<T, R>) {
    Reached(f, [x], [r], m, acts, s) && forall k :: 0 <= k < |acts| ==> Calm(acts[k])
  }

  lemma Extend<T, R>(f: T -> R, x: T, r: R, m: nat, acts: seq<Action<T, R>>, s: Cluster<T, R>, a: Action<T, R>)
    requires CalmlyReached(f, x, r, m, acts, s) && Enabled(s, a) && Calm(a)
    ensures CalmlyReached(f, x, r, m, acts + [a], Apply(f, s, a))
  {
    hide Enabled, Apply, IsRun, After;
    Snoc(f, InitCluster([x], [r], m), acts, a);
  }

  lemma FirstFree(m: nat, used: nat)
    requires used < m
    ensures FreeConn(Conns(m, used)) == used && Conns(m, used)[used] == ClosedConn()
  {
    var c := Conns(m, used);
    assert c[used] == ClosedConn();
    forall k | 0 <= k < used ensures c[k].open {
      assert c[k] == IdleConn(0);
    }
  }

  /** One more client connects. */
  lemma ConnectOne<T, R>(f: T -> R, x: T, r: R, m: nat, acts: seq<Action<T, R>>, used: nat)
    requires CalmlyReached(f, x, r, m, acts, Stage(x, r, m, used)) && used < m
    ensures CalmlyReached(f, x, r, m, acts + [Connect(OneThread(x, r))], Stage(x, r, m, used + 1))
  {
    hide CalmlyReached;
    var s: Cluster<T, R> := Stage(x, r, m, used);
    var a: Action<T, R> := Connect(OneThread(x, r));
    Extend(f, x, r, m, acts, s, a);
    FirstFree(m, used);
    assert Conns(m, used)[used := IdleConn(0)] == Conns(m, used + 1);
    assert Sessions(x, r, m, used)[used := Open(OneThread(x, r), true, [], [])] == Sessions(x, r, m, used + 1);
    assert Apply(f, s, a) == Stage(x, r, m, used + 1);
  }

  /** Both clients connected, nothing sent yet. */
  lemma BothConnected<T, R>(f: T -> R, x: T, r: R, m: nat) returns (acts: seq<Action<T, R>>, s: Cluster<T, R>)
    requires m >= 2
    ensures CalmlyReached(f, x, r, m, acts, s) && s == Stage(x, r, m, 2)
  {
    var s0: Cluster<T, R> := InitCluster([x], [r], m);
    var c: Action<T, R> := Connect(OneThread(x, r));
    assert s0.server.status == [NotResolved] && s0.server.conns == Conns(m, 0) && s0.sessions == Sessions(x, r, m, 0);
    assert CalmlyReached(f, x, r, m, [], s0);
    ConnectOne(f, x, r, m, [], 0);
    ConnectOne(f, x, r, m, [] + [c], 1);
    acts, s := [] + [c] + [c], Stage(x, r, m, 2);
  }

  /** A fresh client i sends its request, the server reads it and turns to that connection. */
  lemma AskForTask<T, R>(f: T -> R, x: T, r: R, m: nat, acts: seq<Action<T, R>>, s: Cluster<T, R>, i: nat)
    returns (acts': seq<Action<T, R>>, s': Cluster<T, R>)
    requires CalmlyReached(f, x, r, m, acts, s) && s.phase == Running && s.loop == IDLE
    requires i < |s.sessions| == |s.server.conns| && s.server.numClients > 0
    requires |s.server.rets| == |s.server.status| == |s.server.tasks|
    requires s.sessions[i] == Open(OneThread(x, r), true, [], []) && s.server.conns[i] == IdleConn(0)
    ensures CalmlyReached(f, x, r, m, acts', s') && s'.phase == Running && s'.loop == i
    ensures s'.server == s.server.(conns := s.server.conns[i := IdleConn(1)])
    ensures s'.sessions == s.sessions[i := Open(Waiting(x, r), true, [], [])]
  {
    hide CalmlyReached;
    assert NextFrame(OneThread(x, r), r) == RequestFrame(r) && Settle(AfterNext(OneThread(x, r))) == Waiting(x, r);
    var s1 := Apply(f, s, ClientSend(i, r));
    Extend(f, x, r, m, acts, s, ClientSend(i, r));
    assert [] + [RequestFrame(r)] == [RequestFrame(r)] && [RequestFrame(r)][1..] == [];
    assert s1.sessions == s.sessions[i := Open(Waiting(x, r), true, [RequestFrame(r)], [])];

    var s2 := Apply(f, s1, ServerReceive(i));
    Extend(f, x, r, m, acts + [ClientSend(i, r)], s1, ServerReceive(i));
    assert s2.server == s.server.(conns := s.server.conns[i := IdleConn(1)]);
    assert s2.sessions == s.sessions[i := Open(Waiting(x, r), true, [], [])];

    Extend(f, x, r, m, acts + [ClientSend(i, r)] + [ServerReceive(i)], s2, Writable(i));
    acts', s' := acts + [ClientSend(i, r)] + [ServerReceive(i)] + [Writable(i)], Apply(f, s2, Writable(i));
  }

  /** The first client asks for a task and is given the only one. */
  lemma FirstServed<T, R>(f: T -> R, x: T, r: R, m: nat) returns (acts: seq<Action<T, R>>, s: Cluster<T, R>)
    requires m >= 2
    ensures CalmlyReached(f, x, r, m, acts, s)
    ensures s.phase == Running && s.loop == IDLE && |s.sessions| == |s.server.conns| == m
    ensures s.server.numNotResolved == 0 && s.server.status == [Resolving] && s.server.hint == 1
    ensures s.server.tasks == [x] && |s.server.rets| == 1 && s.server.numClients == 2
    ensures s.server.conns[1] == IdleConn(0) && s.sessions[1] == Open(OneThread(x, r), true, [], [])
  {
    hide CalmlyReached;
    acts, s := BothConnected(f, x, r, m);
    acts, s := AskForTask(f, x, r, m, acts, s, 0);
    assert IndexOf(EmptyCells(), NO_TASK) == 0;
    assert LeastFrom(s.server.status, 0) == 0;
    Extend(f, x, r, m, acts, s, SendTask(Sent));
    acts, s := acts + [SendTask(Sent)], Apply(f, s, SendTask(Sent));
  }

  /** The second client, armed since it was accepted, asks for a task next: the server exits. */
  lemma GreedyExitIsReachable<T, R>(f: T -> R, x: T, r: R, m: nat) returns (acts: seq<Action<T, R>>, s: Cluster<T, R>)
    requires m >= 2
    ensures Reached(f, [x], [r], m, acts, s) && forall k :: 0 <= k < |acts| ==> Calm(acts[k])
    ensures s.phase == Aborted(GreedyClient) && s.server.numCompleted < |s.server.tasks|
  {
    hide Reached;
    acts, s := FirstServed(f, x, r, m);
    acts, s := AskForTask(f, x, r, m, acts, s, 1);
    Extend(f, x, r, m, acts, s, SendTask(Sent));
    acts, s := acts + [SendTask(Sent)], Apply(f, s, SendTask(Sent));
    ReachedInv(f, [x], [r], m, acts, s);
  }
}
