/**
 * The send loop inside a run of the cluster: a write event followed by one action per answer
 * of the socket does to the server, and puts on the wire, what the loop over the tables does.
 */
module DispatchRun {
  import opened Config
  import opened ServerModel
  import opened ServerInvariant
  import opened Dispatch
  import opened Cluster
  import opened SessionInvariant
  import opened ClusterInvariant
  import opened Theorems

  lemma ServedFacts<T, R>(v: Server<T, R>, i: nat, o: SendOutcome)
    requires Inv(v) && i < |v.conns| && v.conns[i].open && v.conns[i].requested > 0
    ensures CanIterate(v, i)
    ensures SendIter(v, i, o).IterSent? || SendIter(v, i, o).IterRetry? ==>
              var w := SendIter(v, i, o).server;
              && Inv(w) && |w.conns| == |v.conns| && w.conns[i].open
              && w.conns[i].requested == v.conns[i].requested - (if SendIter(v, i, o).IterSent? then 1 else 0)
    ensures SendIter(v, i, o).IterRetry? ==> o == NotReady
  {
    hide Inv, SendIter, CanIterate;
    IterFacts(v, i, o);
  }

  /** The iterations the loop goes through: one per answer until it ends, then with sends
      that succeed. */
  function Iterations<T, R>(v: Server<T, R>, i: nat, answers: seq<SendOutcome>): seq<Action<T, R>>
    requires Inv(v) && i < |v.conns| && v.conns[i].open
    decreases |answers|, v.conns[i].requested
  {
    hide Inv, CanIterate, SendIter;
    if v.conns[i].requested == 0 then []
    else
      var o := if answers == [] then Sent else answers[0];
      var rest := if answers == [] then [] else answers[1..];
      ServedFacts(v, i, o);
      match SendIter(v, i, o)
      case IterSent(v1, _) => [SendTask(o)] + Iterations(v1, i, rest)
      case IterRetry(v1) => [SendTask(o)] + Iterations(v1, i, rest)
      case _ => [SendTask(o)]
  }

  /** They are the given answers in order, and successful sends after that. */
  lemma {:induction false} IterationAnswers<T, R>(v: Server<T, R>, i: nat, answers: seq<SendOutcome>)
    requires Inv(v) && i < |v.conns| && v.conns[i].open
    ensures forall k :: 0 <= k < |Iterations(v, i, answers)| ==>
              Iterations(v, i, answers)[k] == SendTask(if k < |answers| then answers[k] else Sent)
    decreases |answers|, v.conns[i].requested
  {
    hide Inv, CanIterate, SendIter;
    if v.conns[i].requested != 0 {
      var o := if answers == [] then Sent else answers[0];
      var rest := if answers == [] then [] else answers[1..];
      ServedFacts(v, i, o);
      var it := SendIter(v, i, o);
      if it.IterSent? || it.IterRetry? {
        IterationAnswers(it.server, i, rest);
      }
    }
  }

  /** Where the cluster is after the loop: the tables and frames of the loop on its own. */
  ghost predicate EndsAs<T, R>(s: Cluster<T, R>, i: nat, r: LoopResult<T, R>, e: Cluster<T, R>)
    requires i < |s.sessions| && s.sessions[i].Open?
  {
    var x := s.sessions[i];
    var fed := s.sessions[i := x.(down := x.down + r.sent)];
    match r
    case LoopDone(v, _) => e.phase == Running && e.loop == IDLE && e.server == v && e.sessions == fed
    case LoopGreedy(v, _) => e.phase == Aborted(GreedyClient) && e.server == v && e.sessions == fed
    case LoopNoRoom(_, _) => e.phase == Aborted(NoRoomForTask) && e.sessions == fed
    case LoopDropped(v, _) =>
      && e.phase == Running && e.loop == IDLE && e.server == v
      && e.sessions == s.sessions[i := Closed] && e.disconnects == s.disconnects + 1
  }

  /** One action of the loop is one iteration. */
  lemma IterationStep<T, R>(f: T -> R, s: Cluster<T, R>, o: SendOutcome)
    requires ClusterInv(f, s) && s.phase == Running && s.loop >= 0
    ensures Enabled(s, SendTask(o)) && s.loop < |s.sessions| && s.sessions[s.loop].Open?
    ensures var s', i, x := Apply(f, s, SendTask(o)), s.loop, s.sessions[s.loop];
      var it := SendIter(s.server, i, o);
      && (it.IterSent? ==>
            && s'.phase == Running && s'.server == it.server && i < |it.server.conns|
            && s'.sessions == s.sessions[i := x.(down := x.down + [it.frame])]
            && s'.disconnects == s.disconnects
            && s'.loop == if it.server.conns[i].requested == 0 then IDLE else i)
      && (it.IterRetry? ==>
            s'.phase == Running && s'.server == it.server && s'.loop == i
            && s'.sessions == s.sessions[i := x.(down := x.down + [])] && s'.disconnects == s.disconnects)
      && (it.IterGreedy? ==> EndsAs(s, i, LoopGreedy(s.server, []), s'))
      && (it.IterNoRoom? ==> EndsAs(s, i, LoopNoRoom(it.server, []), s'))
      && (it.IterDropped? ==> EndsAs(s, i, LoopDropped(it.server, []), s'))
  {
    hide Inv, AllLinked, Correct, History, AbortSound, Live, SendIter, Held, CanIterate;
    AlwaysInBounds(f, s, SendTask(o));
    SameLength(f, s);
    LoopOpen(s.server.conns, s.loop);
    OpenIff(f, s, s.loop);
    IterFacts(s.server, s.loop, o);
    var x := s.sessions[s.loop];
    assert x.down + [] == x.down && s.sessions[s.loop := x] == s.sessions;
  }

  /** The actions of the whole loop are a run that ends as the loop does. */
  lemma {:induction false} LoopOnCluster<T, R>(f: T -> R, s: Cluster<T, R>, i: nat, answers: seq<SendOutcome>)
    requires ClusterInv(f, s) && s.phase == Running && i < |s.sessions| == |s.server.conns| && s.sessions[i].Open?
    requires Inv(s.server) && s.server.conns[i].open
    requires s.loop == if s.server.conns[i].requested == 0 then IDLE else i
    ensures var acts := Iterations(s.server, i, answers);
      IsRun(f, s, acts) && EndsAs(s, i, SendLoop(s.server, i, answers), After(f, s, acts))
    decreases |answers|, s.server.conns[i].requested
  {
    hide ClusterInv, Inv, Apply, Enabled, SendIter, EndsAs, CanIterate, Served, IsRun, After;
    if s.server.conns[i].requested == 0 {
      NoIteration(f, s, i);
    } else {
      var o := if answers == [] then Sent else answers[0];
      var rest := if answers == [] then [] else answers[1..];
      var a := SendTask(o);
      IterationStep(f, s, o);
      var s1 := Apply(f, s, a);
      StepKeeps(f, s, a);
      ServedFacts(s.server, i, o);
      var it := SendIter(s.server, i, o);
      if it.IterSent? || it.IterRetry? {
        SameLength(f, s1);
        LoopOnCluster(f, s1, i, rest);
        ConsRun(f, s, a, Iterations(s1.server, i, rest));
        var fs := if it.IterSent? then [it.frame] else [];
        EndsPrepend(s, s1, i, fs, SendLoop(s1.server, i, rest), After(f, s1, Iterations(s1.server, i, rest)));
      } else {
        OneAction(f, s, a);
      }
    }
  }

  lemma NoIteration<T, R>(f: T -> R, s: Cluster<T, R>, i: nat)
    requires s.phase == Running && s.loop == IDLE && i < |s.sessions| && s.sessions[i].Open?
    ensures IsRun(f, s, []) && After(f, s, []) == s && EndsAs(s, i, LoopDone(s.server, []), s)
  {
    var x := s.sessions[i];
    assert x.down + [] == x.down && s.sessions[i := x] == s.sessions;
  }

  /** Frames sent before the rest of the loop end up before its frames. */
  lemma EndsPrepend<T, R>(s: Cluster<T, R>, s1: Cluster<T, R>, i: nat, fs: seq<Frame<T>>,
                          r: LoopResult<T, R>, e: Cluster<T, R>)
    requires i < |s.sessions| && s.sessions[i].Open?
    requires s1.sessions == s.sessions[i := s.sessions[i].(down := s.sessions[i].down + fs)]
    requires s1.disconnects == s.disconnects && EndsAs(s1, i, r, e)
    ensures EndsAs(s, i, Prepend(fs, r), e)
    ensures Prepend([], r) == r
  {
    assert [] + r.sent == r.sent;
    var d := s.sessions[i].down;
    assert (d + fs) + r.sent == d + (fs + r.sent);
    assert s1.sessions[i := Closed] == s.sessions[i := Closed];
    assert s1.sessions[i := s1.sessions[i].(down := (d + fs) + r.sent)] == s.sessions[i := s.sessions[i].(down := d + (fs + r.sent))];
  }

  // ---------- from a write event ----------

  /** The tasks pending between handlers are all the connection can be given. */
  lemma BetweenHandlers<T, R>(f: T -> R, s: Cluster<T, R>, i: nat)
    requires ClusterInv(f, s) && s.loop == IDLE && i < |s.sessions| && s.sessions[i].Open?
    ensures Inv(s.server) && |s.sessions| == |s.server.conns| && s.server.conns[i].open && !HasTask(s.server.conns[i])
    ensures Available(s.server, i) == PendingFrom(s.server.status, 0)
    ensures |PendingFrom(s.server.status, 0)| == s.server.numNotResolved
    ensures Demand(s.server.conns[i]) <= |s.sessions[i].client.slots|
  {
    hide Inv, Correct, History, AbortSound, Live, AllLinked, Held;
    SameLength(f, s);
    OpenIff(f, s, i);
    IdleSending(s.server.conns, i);
    CellBudget(f, s.server.tasks, s.server.conns[i], s.sessions[i]);
    AvailableCount(s.server, i);
  }

  /** A write event at a client with at most sixteen threads, for any answers of the socket but
      a broken one: the least pending tasks go out in ascending order, one per open request,
      and the server exits exactly when there are fewer of them than requests. */
  lemma WriteEvent<T, R>(f: T -> R, s: Cluster<T, R>, i: nat, answers: seq<SendOutcome>)
    requires ClusterInv(f, s) && Guard(s, Writable(i)) && Broken !in answers
    requires |s.sessions[i].client.slots| <= 16
    ensures Inv(s.server) && i < |s.server.conns| && s.server.conns[i].open
    ensures |PendingFrom(s.server.status, 0)| == s.server.numNotResolved
    ensures var acts := [Writable(i)] + Iterations(s.server, i, answers);
      && IsRun(f, s, acts)
      && var e, n, pending := After(f, s, acts), s.server.conns[i].requested, PendingFrom(s.server.status, 0);
         var x, sent := s.sessions[i], SendLoop(s.server, i, answers).sent;
      && (e.phase == Running <==> n <= |pending|)
      && (e.phase == Aborted(GreedyClient) <==> n > |pending|)
      && e.sessions == s.sessions[i := x.(down := x.down + sent)]
      && Ids(sent) == pending[..if n <= |pending| then n else |pending|]
      && (forall u :: u in sent ==> Truthful(s.server.tasks, u))
      && (e.phase == Running ==>
            e.loop == IDLE && SendLoop(s.server, i, answers).LoopDone?
            && e.server == SendLoop(s.server, i, answers).server && i < |e.server.conns| && e.server.conns[i].requested == 0
            && PendingFrom(e.server.status, 0) == pending[n..])
  {
    hide ClusterInv, Inv, InBounds, IsRun, After, SendLoop, Iterations, Available, Demand, Truthful, PendingFrom;
    BetweenHandlers(f, s, i);
    AlwaysInBounds(f, s, Writable(i));
    StepKeeps(f, s, Writable(i));
    LoopOnCluster(f, s.(loop := i), i, answers);
    ConsRun(f, s, Writable(i), Iterations(s.server, i, answers));
    DispatchExact(s.server, i, answers);
    var acts := [Writable(i)] + Iterations(s.server, i, answers);
    var e := After(f, s, acts);
    if e.phase == Running {
      RunKeeps(f, s, acts);
      BetweenHandlers(f, e, i);
    }
  }
}
