/**
 * From which states of a run without disconnects the "greedy client" exit can still happen.
 * Completion.dfy says when such a run can end well; this is when it can end badly, and often
 * both are possible: which of the two it is depends on the order of events alone.
 */
module GreedyExit {
  import opened Config
  import opened ServerModel
  import opened ServerInvariant
  import opened Dispatch
  import opened ClientModel
  import opened Cluster
  import opened SessionInvariant
  import opened ClusterInvariant
  import opened Theorems
  import opened Progress
  import opened RequestBudget
  import opened Completion
  import opened DispatchRun

  // ---------- the condition ----------

  predicate Connected<T, R>(s: Cluster<T, R>, i: int) {
    0 <= i < |s.sessions| == |s.server.conns| && s.sessions[i].Open? && s.server.conns[i].open
  }

  /** A client with one thread takes the pending tasks one at a time, and one that waits with all
      its threads for exactly the pending tasks takes them all at once: neither asks for more. */
  predicate Frugal<T, R>(s: Cluster<T, R>, i: int)
    requires Connected(s, i)
  {
    var threads := |s.sessions[i].client.slots|;
    threads == 1 || s.server.conns[i].requested == s.server.numNotResolved == threads
  }

  /** With nothing pending, a connection still armed for writing will do. With tasks pending it
      takes two clients, or one that is not frugal. A newcomer can always bring it about. */
  ghost predicate ExitPossible<T, R>(s: Cluster<T, R>, newcomers: bool) {
    || (s.server.numNotResolved == 0 && exists i :: Connected(s, i) && s.server.conns[i].armed)
    || (s.server.numNotResolved > 0 && exists i, j :: i != j && Connected(s, i) && Connected(s, j))
    || (s.server.numNotResolved > 0 && exists i :: Connected(s, i) && !Frugal(s, i))
    || (newcomers && s.server.numClients < |s.server.conns|)
  }

  ghost predicate ExitsGreedily<T, R>(f: T -> R, s: Cluster<T, R>, newcomers: bool, acts: seq<Action<T, R>>) {
    && IsRun(f, s, acts)
    && (forall k :: 0 <= k < |acts| ==> Permitted(acts[k], newcomers))
    && After(f, s, acts).phase == Aborted(GreedyClient)
  }

  /** No disconnect and no newcomer. */
  predicate AllSteady<T, R>(acts: seq<Action<T, R>>) {
    forall k :: 0 <= k < |acts| ==> Permitted(acts[k], false)
  }

  /** A calm state between two handlers. */
  ghost predicate AtRest<T, R>(f: T -> R, s: Cluster<T, R>) {
    CalmInv(f, s) && s.phase == Running && s.loop == IDLE && ThreadsFit(s.sessions)
  }

  // ---------- asking and serving ----------

  /** What lies between two states at rest: connection i has `asked` more requests open, which
      arm it if there is work; nobody else is affected. */
  ghost predicate Asked<T, R>(s: Cluster<T, R>, i: nat, asked: nat, e: Cluster<T, R>) {
    && |s.sessions| == |s.server.conns| == |e.sessions| == |e.server.conns|
    && e.server.numNotResolved == s.server.numNotResolved
    && OthersSame(s.server.conns, i, e.server.conns)
    && (i < |s.server.conns| ==>
          var c, c' := s.server.conns[i], e.server.conns[i];
          && c'.open == c.open && c'.requested == c.requested + asked
          && c'.armed == (c.armed || (asked > 0 && s.server.numNotResolved > 0)))
    && SameThreads(s.sessions, e.sessions)
  }

  ghost predicate SameThreads<T, R>(xs: seq<Session<T, R>>, ys: seq<Session<T, R>>) {
    && |ys| == |xs|
    && forall j :: 0 <= j < |xs| ==>
         (xs[j].Open? <==> ys[j].Open?) && (xs[j].Open? ==> |ys[j].client.slots| == |xs[j].client.slots|)
  }

  /** A step of a client, or the server reading a frame, keeps all clients and their threads. */
  lemma QuietThreads<T, R>(f: T -> R, s: Cluster<T, R>, a: Action<T, R>)
    requires CalmInv(f, s) && Enabled(s, a) && Calm(a)
    requires !a.Connect? && !a.SendTask? && !a.Writable? && !a.Finish?
    ensures SameThreads(s.sessions, Apply(f, s, a).sessions)
  {
    hide Inv, Live, AllLinked, Correct, History, AbortSound, LoopSound, ArmedForWork, Receive;
    SameLength(f, s);
    if a.ServerReceive? {
      ReceivedFrame(f, s, a.conn);
      ArmedReceive(s.server, a.conn, s.sessions[a.conn].up[0]);
    } else {
      ClientThreads(f, s, a);
      hide Apply;
    }
  }

  /** A thread that is not asking yet keeps its session busy. */
  lemma NotQuiet<T, R>(f: T -> R, s: Cluster<T, R>, i: nat)
    requires ClusterInv(f, s) && Connected(s, i) && s.server.conns[i].requested < |s.sessions[i].client.slots|
    ensures !Quiet(s.sessions[i])
  {
    hide Inv, AllLinked, Correct, History, AbortSound, LoopSound, Held;
    TokenConservation(f, s, i);
    if Quiet(s.sessions[i]) {
      BlankTable(s.sessions[i].client.slots);
    }
  }

  lemma BlankTable<T, R>(slots: seq<Slot<T, R>>)
    requires forall k :: 0 <= k < |slots| ==> slots[k].empty
    ensures |Held(SlotIds(slots))| == 0
  {
    assert SlotIds(slots) == seq(|slots|, _ => NO_TASK);
    HeldBlank(|slots|);
  }

  /** A client with a thread that is not asking can be let go on until the server has read one
      more request from it. */
  lemma {:induction false} Ask<T, R>(f: T -> R, s: Cluster<T, R>, i: nat) returns (acts: seq<Action<T, R>>)
    requires AtRest(f, s) && Connected(s, i) && s.server.conns[i].requested < |s.sessions[i].client.slots|
    ensures IsRun(f, s, acts) && AllSteady(acts)
    ensures AtRest(f, After(f, s, acts)) && Asked(s, i, 1, After(f, s, acts))
    decreases Measure(s)
  {
    hide CalmInv, ClusterInv, Apply, Measure, Productive, ThreadsFit, Asked, Quiet, InBounds, SameThreads;
    CalmFacts(f, s);
    MeasureNatural(f, s);
    NotQuiet(f, s, i);
    var a := BusySession(f, s, i, s.sessions[i].client.slots[0].ret);
    var s1 := AskOnce(f, s, i, a);
    if a.ServerReceive? {
      acts := [a];
      OneAction(f, s, a);
    } else {
      AskedConnected(s, i, s1);
      CalmFacts(f, s1);
      MeasureNatural(f, s1);
      var rest := Ask(f, s1, i);
      ConsRun(f, s, a, rest);
      AskedVia(s, i, 0, s1, 1, After(f, s1, rest));
      acts := [a] + rest;
    }
  }

  lemma AskOnce<T, R>(f: T -> R, s: Cluster<T, R>, i: nat, a: Action<T, R>) returns (s1: Cluster<T, R>)
    requires AtRest(f, s) && Guard(s, a) && Productive(a) && !a.Writable? && !a.SendTask? && a.conn == i
    ensures Enabled(s, a) && Permitted(a, false) && s1 == Apply(f, s, a)
    ensures AtRest(f, s1) && Asked(s, i, if a.ServerReceive? then 1 else 0, s1)
    ensures |s.sessions| == |s.server.conns| && |s1.sessions| == |s1.server.conns| && Measure(s1) < Measure(s)
  {
    hide CalmInv, ClusterInv, Apply, Measure, ThreadsFit, InBounds, SameThreads;
    CalmFacts(f, s);
    AlwaysInBounds(f, s, a);
    s1 := Apply(f, s, a);
    CalmProductive(a);
    CalmStep(f, s, a);
    ThreadsKept(f, s, a);
    MeasureDrops(f, s, a);
    QuietStep(f, s, a);
    QuietThreads(f, s, a);
    MeasureNatural(f, s);
    MeasureNatural(f, s1);
  }

  lemma AskedConnected<T, R>(s: Cluster<T, R>, i: nat, e: Cluster<T, R>)
    requires Asked(s, i, 0, e) && Connected(s, i)
    ensures Connected(e, i) && e.server.conns[i].requested == s.server.conns[i].requested
    ensures |e.sessions[i].client.slots| == |s.sessions[i].client.slots|
  {
  }

  lemma AskedVia<T, R>(s: Cluster<T, R>, i: nat, m: nat, s1: Cluster<T, R>, n: nat, e: Cluster<T, R>)
    requires Asked(s, i, m, s1) && Asked(s1, i, n, e)
    ensures Asked(s, i, m + n, e)
  {
  }

  /** The send loop leaves all other connections alone, and withdraws write interest. */
  lemma {:induction false} LoopOthers<T, R>(v: Server<T, R>, i: nat, answers: seq<SendOutcome>)
    requires Inv(v) && i < |v.conns| && v.conns[i].open
    ensures SendLoop(v, i, answers).LoopDone? ==>
              var w := SendLoop(v, i, answers).server;
              OthersSame(v.conns, i, w.conns) && (v.conns[i].requested > 0 ==> !w.conns[i].armed)
    decreases |answers|, v.conns[i].requested
  {
    hide Inv, CanIterate, SendIter;
    if v.conns[i].requested != 0 {
      var o := if answers == [] then Sent else answers[0];
      var rest := if answers == [] then [] else answers[1..];
      ServedFacts(v, i, o);
      SendOthers(v, i, o);
      var it := SendIter(v, i, o);
      if it.IterSent? || it.IterRetry? {
        LoopOthers(it.server, i, rest);
      }
    }
  }

  lemma PendingCounted<T, R>(v: Server<T, R>)
    requires Inv(v)
    ensures |PendingFrom(v.status, 0)| == v.numNotResolved
  {
    PendingCount(v.status, 0);
    assert v.status[0..] == v.status;
    hide CellsMatch, ConnShape;
  }

  /** A write event with sends that succeed: the requests are served if there are as many
      pending tasks, and otherwise the server exits. */
  lemma WriteOut<T, R>(f: T -> R, s: Cluster<T, R>, i: nat) returns (acts: seq<Action<T, R>>)
    requires AtRest(f, s) && Connected(s, i) && s.server.conns[i].armed && s.server.conns[i].requested > 0
    ensures IsRun(f, s, acts) && AllSteady(acts)
    ensures s.server.conns[i].requested > s.server.numNotResolved ==> After(f, s, acts).phase == Aborted(GreedyClient)
    ensures s.server.conns[i].requested <= s.server.numNotResolved ==>
              AtRest(f, After(f, s, acts)) && GivenAll(s, i, After(f, s, acts))
  {
    hide CalmInv, ClusterInv, Inv, IsRun, After, SendLoop, Iterations, Truthful, PendingFrom, OthersSame, InBounds, ThreadsFit;
    CalmFacts(f, s);
    Fits(s, i);
    WriteEvent(f, s, i, []);
    LoopOthers(s.server, i, []);
    IterationAnswers(s.server, i, []);
    acts := [Writable(i)] + Iterations(s.server, i, []);
    assert AllSteady(acts);
    var e := After(f, s, acts);
    if e.phase == Running {
      CalmRunKeeps(f, s, acts);
      CalmFacts(f, e);
      PendingCounted(e.server);
      var x := s.sessions[i];
      FedThreads(s.sessions, i, SendLoop(s.server, i, []).sent);
      ServedConnected(f, s, i, e);
    }
  }

  /** Connection i has been given what it asked for; nobody else is affected. */
  ghost predicate GivenAll<T, R>(s: Cluster<T, R>, i: nat, e: Cluster<T, R>) {
    && SameThreads(s.sessions, e.sessions)
    && |e.sessions| == |e.server.conns|
    && i < |s.server.conns| && e.server.numNotResolved == s.server.numNotResolved - s.server.conns[i].requested
    && OthersSame(s.server.conns, i, e.server.conns)
    && e.server.conns[i].open && e.server.conns[i].requested == 0 && !e.server.conns[i].armed
    && i < |s.sessions| && s.sessions[i].Open? && e.sessions[i].Open?
    && |e.sessions[i].down| == |s.sessions[i].down| + s.server.conns[i].requested
  }

  lemma Fits<T, R>(s: Cluster<T, R>, i: nat)
    requires ThreadsFit(s.sessions) && Connected(s, i)
    ensures |s.sessions[i].client.slots| <= 16
  {
  }

  lemma FedThreads<T, R>(xs: seq<Session<T, R>>, i: nat, fs: seq<Frame<T>>)
    requires i < |xs| && xs[i].Open?
    ensures SameThreads(xs, xs[i := xs[i].(down := xs[i].down + fs)])
    ensures ThreadsFit(xs) ==> ThreadsFit(xs[i := xs[i].(down := xs[i].down + fs)])
  {
  }

  lemma ServedConnected<T, R>(f: T -> R, s: Cluster<T, R>, i: nat, e: Cluster<T, R>)
    requires ClusterInv(f, e) && i < |e.sessions| && e.sessions[i].Open?
    ensures |e.sessions| == |e.server.conns| && e.server.conns[i].open
  {
    hide Inv, Live, Correct, History, AbortSound;
    OpenIff(f, e, i);
  }

  // ---------- the condition is sufficient ----------

  /** One run after another, towards the exit. */
  lemma Then<T, R>(f: T -> R, s: Cluster<T, R>, acts: seq<Action<T, R>>, more: seq<Action<T, R>>, newcomers: bool)
    requires IsRun(f, s, acts) && (forall k :: 0 <= k < |acts| ==> Permitted(acts[k], newcomers))
    requires ExitsGreedily(f, After(f, s, acts), newcomers, more)
    ensures ExitsGreedily(f, s, newcomers, acts + more)
  {
    hide IsRun, After, Permitted;
    AppendRun(f, s, acts, more);
  }

  /** While tasks are pending, whoever asks is armed. */
  lemma AskersArmed<T, R>(f: T -> R, s: Cluster<T, R>, i: nat)
    requires AtRest(f, s) && Connected(s, i) && s.server.numNotResolved > 0 && s.server.conns[i].requested > 0
    ensures s.server.conns[i].armed
  {
    hide ClusterInv, ThreadsFit, AllAlive;
  }

  /** No client asks with more threads than it has, and every client has one. */
  lemma AskersBounded<T, R>(f: T -> R, s: Cluster<T, R>, i: nat)
    requires AtRest(f, s) && Connected(s, i)
    ensures s.server.conns[i].requested <= |s.sessions[i].client.slots| && |s.sessions[i].client.slots| > 0
  {
    hide Inv, AllLinked, Correct, History, AbortSound, LoopSound, Held, ThreadsFit, ArmedForWork, AllAlive;
    TokenConservation(f, s, i);
    OpenIff(f, s, i);
  }

  /** Nothing is pending and connection i is armed: let it ask, and turn to it. */
  lemma ExitWhenDrained<T, R>(f: T -> R, s: Cluster<T, R>, i: nat) returns (acts: seq<Action<T, R>>)
    requires AtRest(f, s) && Connected(s, i) && s.server.numNotResolved == 0 && s.server.conns[i].armed
    ensures ExitsGreedily(f, s, false, acts)
  {
    hide AtRest, IsRun, After;
    AskersBounded(f, s, i);
    if s.server.conns[i].requested > 0 {
      acts := WriteOut(f, s, i);
    } else {
      acts := Ask(f, s, i);
      var e := After(f, s, acts);
      var more := WriteOut(f, e, i);
      Then(f, s, acts, more, false);
      acts := acts + more;
    }
  }

  /** A client that is not frugal: serve it until it can ask for more than is left. */
  lemma {:induction false} ExitOfOne<T, R>(f: T -> R, s: Cluster<T, R>, i: nat) returns (acts: seq<Action<T, R>>)
    requires AtRest(f, s) && Connected(s, i) && s.server.numNotResolved > 0 && !Frugal(s, i)
    ensures ExitsGreedily(f, s, false, acts)
    decreases s.server.numNotResolved, |s.sessions[i].client.slots| - s.server.conns[i].requested
  {
    hide AtRest, IsRun, After;
    AskersBounded(f, s, i);
    var n, pending := s.server.conns[i].requested, s.server.numNotResolved;
    if n > 0 {
      AskersArmed(f, s, i);
    }
    if n > pending {
      acts := WriteOut(f, s, i);
    } else {
      if n == 0 || n == pending {
        acts := Ask(f, s, i);
      } else {
        acts := WriteOut(f, s, i);
      }
      var more := ExitOfOne(f, After(f, s, acts), i);
      Then(f, s, acts, more, false);
      acts := acts + more;
    }
  }

  /** Two clients: let one of them ask, and serve the other until nothing is left. */
  lemma {:induction false} ExitOfTwo<T, R>(f: T -> R, s: Cluster<T, R>, i: nat, j: nat) returns (acts: seq<Action<T, R>>)
    requires AtRest(f, s) && Connected(s, i) && Connected(s, j) && i != j && s.server.numNotResolved > 0
    ensures ExitsGreedily(f, s, false, acts)
    decreases s.server.numNotResolved, s.server.conns[j].requested == 0, s.server.conns[i].requested == 0
  {
    hide AtRest, IsRun, After;
    AskersBounded(f, s, i);
    AskersBounded(f, s, j);
    var more;
    if s.server.conns[j].requested == 0 {
      acts := Ask(f, s, j);
      more := ExitOfTwo(f, After(f, s, acts), i, j);
    } else if s.server.conns[i].requested == 0 {
      acts := Ask(f, s, i);
      more := ExitOfTwo(f, After(f, s, acts), i, j);
    } else {
      AskersArmed(f, s, i);
      AskersArmed(f, s, j);
      acts := WriteOut(f, s, i);
      if s.server.conns[i].requested > s.server.numNotResolved { return; }
      var e := After(f, s, acts);
      if e.server.numNotResolved == 0 {
        more := ExitWhenDrained(f, e, j);
      } else {
        more := ExitOfTwo(f, e, i, j);
      }
    }
    Then(f, s, acts, more, false);
    acts := acts + more;
  }

  /** A newcomer with two threads, whose values do not matter. */
  function TwoThreads<T, R>(x: T, r: R): (c: Client<T, R>)
    ensures Fresh(c) && |c.slots| == 2
  {
    OneThread<T, R>(x, r).(slots := OneThread<T, R>(x, r).slots + OneThread<T, R>(x, r).slots, initial := 2)
  }

  /** A new client takes a free cell; nobody else is affected. */
  lemma ConnectFresh<T, R>(f: T -> R, s: Cluster<T, R>, c: Client<T, R>) returns (i: nat)
    requires AtRest(f, s) && s.server.numClients < |s.server.conns| && Fresh(c) && |c.slots| <= 16
    ensures Enabled(s, Connect(c)) && AtRest(f, Apply(f, s, Connect(c)))
    ensures var e := Apply(f, s, Connect(c));
      && Connected(e, i) && !Connected(s, i) && (forall j :: j != i ==> (Connected(e, j) <==> Connected(s, j)))
      && e.server.conns[i].armed && e.server.conns[i].requested == 0 && e.sessions[i].client == c
      && OthersSame(s.server.conns, i, e.server.conns)
      && (forall j :: 0 <= j < |s.sessions| && j != i ==> e.sessions[j] == s.sessions[j])
      && e.server.numNotResolved == s.server.numNotResolved && e.server.numClients == s.server.numClients + 1
  {
    hide Inv, Live, AllLinked, Correct, History, AbortSound, ArmedForWork, LoopSound, AllAlive;
    SameLength(f, s);
    AcceptInv(s.server);
    i := Accept(s.server).conn;
    CalmStep(f, s, Connect(c));
  }

  /** Where the exit is possible, some run leads to it. */
  lemma CanExit<T, R>(f: T -> R, s: Cluster<T, R>, newcomers: bool, x: T, r: R) returns (acts: seq<Action<T, R>>)
    requires AtRest(f, s) && ExitPossible(s, newcomers)
    ensures ExitsGreedily(f, s, newcomers, acts)
  {
    hide AtRest, IsRun, After, Frugal;
    PendingNatural(f, s);
    if s.server.numNotResolved == 0 && exists i :: Connected(s, i) && s.server.conns[i].armed {
      var i :| Connected(s, i) && s.server.conns[i].armed;
      acts := ExitWhenDrained(f, s, i);
    } else if s.server.numNotResolved > 0 && exists i, j :: i != j && Connected(s, i) && Connected(s, j) {
      var i, j :| i != j && Connected(s, i) && Connected(s, j);
      acts := ExitOfTwo(f, s, i, j);
    } else if s.server.numNotResolved > 0 && exists i :: Connected(s, i) && !Frugal(s, i) {
      var i :| Connected(s, i) && !Frugal(s, i);
      acts := ExitOfOne(f, s, i);
    } else {
      acts := ExitOfNewcomer(f, s, x, r);
    }
  }

  lemma ExitOfNewcomer<T, R>(f: T -> R, s: Cluster<T, R>, x: T, r: R) returns (acts: seq<Action<T, R>>)
    requires AtRest(f, s) && s.server.numClients < |s.server.conns|
    ensures ExitsGreedily(f, s, true, acts)
  {
    hide AtRest, Apply, Enabled, Connected;
    PendingNatural(f, s);
    var i := ConnectFresh(f, s, TwoThreads(x, r));
    var a: Action<T, R> := Connect(TwoThreads(x, r));
    var e := Apply(f, s, a);
    if e.server.numNotResolved == 0 {
      acts := ExitWhenDrained(f, e, i);
    } else {
      acts := ExitOfOne(f, e, i);
    }
    OneAction(f, s, a);
    Then(f, s, [a], acts, true);
    acts := [a] + acts;
  }

  lemma PendingNatural<T, R>(f: T -> R, s: Cluster<T, R>)
    requires AtRest(f, s)
    ensures s.server.numNotResolved >= 0
  {
    hide ClusterInv, Inv;
    CalmFacts(f, s);
    NotNegative(s.server);
  }

  // ---------- the condition is necessary ----------

  /** Inside a send loop: only this connection is open, the pool and the task in hand cover its
      requests, and what is left afterwards is safe again. */
  ghost predicate SafeLoop<T, R>(s: Cluster<T, R>) {
    && Connected(s, s.loop) && (forall j :: Connected(s, j) ==> j == s.loop)
    && var c := s.server.conns[s.loop];
       var covered := s.server.numNotResolved + (if c.sending == NO_TASK then 0 else 1);
       && c.requested <= covered
       && (|s.sessions[s.loop].client.slots| == 1 || c.requested == covered)
  }

  ghost predicate Safe<T, R>(s: Cluster<T, R>, newcomers: bool) {
    && (newcomers ==> s.server.numClients >= |s.server.conns|)
    && if s.loop >= 0 then SafeLoop(s) else !ExitPossible(s, newcomers)
  }

  /** Turning to an armed connection of a safe state. */
  lemma SafeEntry<T, R>(f: T -> R, s: Cluster<T, R>, i: nat, newcomers: bool)
    requires CalmInv(f, s) && Enabled(s, Writable(i)) && Safe(s, newcomers)
    ensures Safe(s.(loop := i), newcomers)
  {
    hide Inv, AllLinked, Correct, History, AbortSound, ArmedForWork, AllAlive, LoopSound;
    InHandOnlyInLoop(f, s, i);
    TokenConservation(f, s, i);
    NotNegative(s.server);
    assert Connected(s, i) && Frugal(s, i);
    var s' := s.(loop := i);
    forall j | Connected(s', j) ensures j == i {
      assert Connected(s, j);
    }
  }

  lemma SendThreads<T, R>(f: T -> R, s: Cluster<T, R>, o: SendOutcome)
    requires ClusterInv(f, s) && Enabled(s, SendTask(o)) && o != Broken
    ensures SameThreads(s.sessions, Apply(f, s, SendTask(o)).sessions)
    ensures |s.sessions| == |s.server.conns| && s.loop >= 0
  {
    hide Inv, AllLinked, Correct, History, AbortSound, LoopSound, SendIter;
    SameLength(f, s);
    CalmSend(s, o);
  }

  lemma SafeIteration<T, R>(f: T -> R, s: Cluster<T, R>, o: SendOutcome, newcomers: bool)
    requires CalmInv(f, s) && Enabled(s, SendTask(o)) && o != Broken && Safe(s, newcomers)
    ensures var s' := Apply(f, s, SendTask(o));
      s'.phase != Aborted(GreedyClient) && (s'.phase == Running ==> Safe(s', newcomers))
  {
    hide CalmInv, ClusterInv, Apply, InBounds, OthersSame, ExitPossible, SameThreads;
    CalmFacts(f, s);
    LoopStep(f, s, o);
    SendThreads(f, s, o);
    var s' := Apply(f, s, SendTask(o));
    if s'.phase == Running {
      OneChanged(s, s');
      SafeAfterSend(s, s', newcomers);
    }
  }

  /** One request served from the pool or the task in hand, or a task taken in hand. */
  lemma SafeAfterSend<T, R>(s: Cluster<T, R>, s': Cluster<T, R>, newcomers: bool)
    requires s.loop >= 0 && Safe(s, newcomers) && s'.server.numClients == s.server.numClients
    requires |s'.server.conns| == |s.server.conns| && Connected(s, s.loop) && Connected(s', s.loop)
    requires forall j :: Connected(s', j) <==> Connected(s, j)
    requires |s'.sessions[s.loop].client.slots| == |s.sessions[s.loop].client.slots|
    requires var c, c' := s.server.conns[s.loop], s'.server.conns[s.loop];
      && s'.server.numNotResolved == s.server.numNotResolved - (if c.sending == NO_TASK then 1 else 0)
      && (|| (!c'.armed && c'.sending == NO_TASK && c'.requested == c.requested - 1
              && s'.loop == if c'.requested == 0 then IDLE else s.loop)
          || (c'.sending != NO_TASK && c'.requested == c.requested && s'.loop == s.loop))
    ensures Safe(s', newcomers)
  {
  }

  lemma OneChanged<T, R>(s: Cluster<T, R>, s': Cluster<T, R>)
    requires 0 <= s.loop < |s.server.conns| == |s.sessions|
    requires OthersSame(s.server.conns, s.loop, s'.server.conns) && s.server.conns[s.loop].open && s'.server.conns[s.loop].open
    requires SameThreads(s.sessions, s'.sessions) && Connected(s, s.loop)
    ensures forall j :: Connected(s', j) <==> Connected(s, j)
    ensures |s'.sessions[s.loop].client.slots| == |s.sessions[s.loop].client.slots|
  {
  }

  lemma SafeQuiet<T, R>(f: T -> R, s: Cluster<T, R>, a: Action<T, R>, newcomers: bool)
    requires CalmInv(f, s) && Enabled(s, a) && Calm(a) && Safe(s, newcomers)
    requires !a.Connect? && !a.SendTask? && !a.Writable? && !a.Finish?
    ensures Apply(f, s, a).phase == Running && Safe(Apply(f, s, a), newcomers)
  {
    hide CalmInv, ClusterInv, Apply, InBounds;
    CalmFacts(f, s);
    SameLength(f, s);
    QuietStep(f, s, a);
    QuietThreads(f, s, a);
    if a.ServerReceive? {
      AskingWithAll(f, s, a.conn);
    }
    var s' := Apply(f, s, a);
    forall j ensures Connected(s', j) <==> Connected(s, j) {
    }
  }

  /** A client that asks with all its threads has sent nothing else. */
  lemma AskingWithAll<T, R>(f: T -> R, s: Cluster<T, R>, i: nat)
    requires ClusterInv(f, s) && Guard(s, ServerReceive(i))
    ensures i < |s.server.conns| && s.server.conns[i].requested < |s.sessions[i].client.slots|
  {
    hide Inv, AllLinked, Correct, History, AbortSound, LoopSound, Held;
    TokenConservation(f, s, i);
  }

  /** No permitted action leads from a safe state to the exit or out of the safe states. */
  lemma SafeStep<T, R>(f: T -> R, s: Cluster<T, R>, a: Action<T, R>, newcomers: bool)
    requires CalmInv(f, s) && Enabled(s, a) && Permitted(a, newcomers) && Safe(s, newcomers)
    ensures var s' := Apply(f, s, a);
      s'.phase != Aborted(GreedyClient) && (s'.phase == Running ==> Safe(s', newcomers))
  {
    hide ClusterInv, ArmedForWork, AllAlive, Apply, InBounds;
    CalmFacts(f, s);
    NotNegative(s.server);
    if a.Connect? {
      FullTable(f, s, a);
    } else if a.Writable? {
      WritableStep(f, s, a.conn);
      SafeEntry(f, s, a.conn, newcomers);
    } else if a.SendTask? {
      SafeIteration(f, s, a.answer, newcomers);
    } else if a.Finish? {
      FinishStep(f, s);
    } else {
      SafeQuiet(f, s, a, newcomers);
    }
  }

  lemma {:induction false} CannotExit<T, R>(f: T -> R, s: Cluster<T, R>, newcomers: bool, acts: seq<Action<T, R>>)
    requires CalmInv(f, s) && s.phase == Running && Safe(s, newcomers)
    ensures !ExitsGreedily(f, s, newcomers, acts)
    decreases |acts|
  {
    hide CalmInv, Apply, Safe, InBounds;
    if acts != [] && ExitsGreedily(f, s, newcomers, acts) {
      var s1 := Apply(f, s, acts[0]);
      SafeStep(f, s, acts[0], newcomers);
      CalmStep(f, s, acts[0]);
      var rest := acts[1..];
      assert forall k :: 0 <= k < |rest| ==> rest[k] == acts[k + 1];
      assert ExitsGreedily(f, s1, newcomers, rest);
      if s1.phase == Running {
        CannotExit(f, s1, newcomers, rest);
      }
    }
  }

  // ---------- exactly when ----------

  lemma ExitFromRest<T, R>(f: T -> R, s: Cluster<T, R>, newcomers: bool, x: T, r: R)
    requires AtRest(f, s)
    ensures ExitPossible(s, newcomers) <==> exists more :: ExitsGreedily(f, s, newcomers, more)
  {
    hide CalmInv, ThreadsFit, ExitPossible, ExitsGreedily;
    if ExitPossible(s, newcomers) {
      var more := CanExit(f, s, newcomers, x, r);
    } else {
      SafeAtRest(s, newcomers);
      forall more ensures !ExitsGreedily(f, s, newcomers, more) {
        CannotExit(f, s, newcomers, more);
      }
    }
  }

  /** Between handlers of any calm run, whatever values x and r a newcomer starts from: the
      server can still exit over a request it has no task for if and only if nothing is pending
      and somebody is armed, or tasks are pending and there are two clients or one that is not
      frugal, or a newcomer may come. */
  lemma ExitExactly<T, R>(f: T -> R, tasks: seq<T>, rets: seq<R>, maxClients: nat,
                          acts: seq<Action<T, R>>, s: Cluster<T, R>, newcomers: bool, x: T, r: R)
    requires Reached(f, tasks, rets, maxClients, acts, s) && forall k :: 0 <= k < |acts| ==> Calm(acts[k])
    requires s.phase == Running && s.loop == IDLE && ThreadsFit(s.sessions)
    ensures ExitPossible(s, newcomers) <==> exists more :: ExitsGreedily(f, s, newcomers, more)
  {
    hide IsRun, After, ThreadsFit, CalmInv, ExitPossible, ExitsGreedily;
    InitCalm(f, tasks, rets, maxClients);
    CalmRunKeeps(f, InitCluster(tasks, rets, maxClients), acts);
    ExitFromRest(f, s, newcomers, x, r);
  }

  lemma SafeAtRest<T, R>(s: Cluster<T, R>, newcomers: bool)
    requires s.loop == IDLE && !ExitPossible(s, newcomers)
    ensures Safe(s, newcomers)
  {
  }
}
