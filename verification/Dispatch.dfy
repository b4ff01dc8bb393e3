/**
 * The server's send loop over one connection, for any pattern of answers from the socket.
 * It hands out the task already taken first and then the least pending tasks in ascending
 * order, one per request, and aborts exactly when there are more requests than that.
 */
module Dispatch {
  import opened Config
  import opened ServerModel
  import opened ServerInvariant

  // ---------- the pending tasks as an ascending list ----------

  function PendingFrom(status: seq<Status>, h: nat): seq<nat>
    requires h <= |status|
    decreases |status| - h
  {
    if h == |status| then []
    else if status[h] == NotResolved then [h] + PendingFrom(status, h + 1)
    else PendingFrom(status, h + 1)
  }

  /** The list is strictly ascending and contains exactly the NotResolved tasks from h on. */
  lemma {:induction false} PendingMeaning(status: seq<Status>, h: nat)
    requires h <= |status|
    ensures forall t: nat :: t in PendingFrom(status, h) <==> h <= t < |status| && status[t] == NotResolved
    ensures forall j, k :: 0 <= j < k < |PendingFrom(status, h)| ==> PendingFrom(status, h)[j] < PendingFrom(status, h)[k]
    decreases |status| - h
  {
    if h < |status| {
      PendingMeaning(status, h + 1);
      var rest := PendingFrom(status, h + 1);
      forall k | 0 <= k < |rest| ensures rest[k] >= h + 1 {
        assert rest[k] in rest;
      }
    }
  }

  lemma {:induction false} PendingHead(status: seq<Status>, h: nat)
    requires h <= |status|
    ensures var t := LeastFrom(status, h);
            PendingFrom(status, h) == if t == |status| then [] else [t] + PendingFrom(status, t + 1)
    decreases |status| - h
  {
    if h < |status| && status[h] != NotResolved {
      PendingHead(status, h + 1);
    }
  }

  lemma {:induction false} PendingBelow(status: seq<Status>, t: nat, x: Status, h: nat)
    requires t < h <= |status|
    ensures PendingFrom(status[t := x], h) == PendingFrom(status, h)
    decreases |status| - h
  {
    if h < |status| {
      PendingBelow(status, t, x, h + 1);
    }
  }

  lemma {:induction false} PendingSkip(status: seq<Status>, l: nat, h: nat)
    requires l <= h <= |status|
    requires forall t :: l <= t < h ==> status[t] != NotResolved
    ensures PendingFrom(status, l) == PendingFrom(status, h)
    decreases h - l
  {
    if l < h {
      PendingSkip(status, l + 1, h);
    }
  }

  lemma {:induction false} PendingCount(status: seq<Status>, h: nat)
    requires h <= |status|
    ensures |PendingFrom(status, h)| == multiset(status[h..])[NotResolved]
    decreases |status| - h
  {
    if h < |status| {
      PendingCount(status, h + 1);
      assert status[h..] == [status[h]] + status[h + 1..];
      assert multiset(status[h..]) == multiset{status[h]} + multiset(status[h + 1..]);
    }
  }

  // ---------- what one connection can be given ----------

  predicate HasTask(c: Conn) {
    c.sending != NO_TASK
  }

  ghost function Available<T, R>(s: Server<T, R>, i: nat): seq<int>
    requires Inv(s) && i < |s.conns| && s.conns[i].open
  {
    var c := s.conns[i];
    (if HasTask(c) then [c.cells[c.sending]] else []) + PendingFrom(s.status, 0)
  }

  /** Requests that will still need a cell of the task list. */
  ghost function Demand(c: Conn): int {
    |Held(c.cells)| + c.requested - (if HasTask(c) then 1 else 0)
  }

  lemma AvailableCount<T, R>(s: Server<T, R>, i: nat)
    requires Inv(s) && i < |s.conns| && s.conns[i].open
    ensures |Available(s, i)| == s.numNotResolved + (if HasTask(s.conns[i]) then 1 else 0)
  {
    PendingCount(s.status, 0);
    assert s.status[0..] == s.status;
  }

  /** Taking a new task. */
  lemma GetTaskAvailable<T, R>(s: Server<T, R>, i: nat)
    requires Inv(s) && i < |s.conns| && s.conns[i].open && GetTask(s, i).Got?
    ensures var t, k := LeastFrom(s.status, s.hint), IndexOf(s.conns[i].cells, NO_TASK);
      && PendingFrom(s.status, 0) == [t] + PendingFrom(s.status[t := Resolving], 0)
      && |Held(s.conns[i].cells[k := t])| == |Held(s.conns[i].cells)| + 1
  {
    hide AllHeld, Held, CellsMatch, Counted, OpenCount, LeastFrom, IndexOf, PendingFrom;
    PendingAfterTake(s.status, s.hint);
    HeldFilled(s.conns[i].cells, IndexOf(s.conns[i].cells, NO_TASK), LeastFrom(s.status, s.hint));
  }

  /** Taking a task changes neither what is available nor the demand for cells. */
  lemma TakeTaskAvailable<T, R>(s: Server<T, R>, i: nat)
    requires Inv(s) && i < |s.conns| && s.conns[i].open && CanIterate(s, i)
    ensures TakeTask(s, i).Got? ==>
              var s1, k := TakeTask(s, i).server, TakeTask(s, i).cell;
              && Inv(s1) && Available(s1, i) == Available(s, i) && Demand(s1.conns[i]) == Demand(s.conns[i])
              && HasTask(s1.conns[i]) && k < |s1.conns[i].cells|
              && s1.conns[i].cells[k] == Available(s, i)[0] && s1.tasks == s.tasks
  {
    hide Inv, Held, LeastFrom, IndexOf, PendingFrom;
    TakeTaskInv(s, i);
    if TakeTask(s, i).Got? && !HasTask(s.conns[i]) {
      GetTaskAvailable(s, i);
    }
  }

  lemma HeldFilled(cells: seq<int>, k: nat, t: nat)
    requires k < |cells| && cells[k] == NO_TASK
    ensures |Held(cells[k := t])| == |Held(cells)| + 1
  {
    HeldUpdate(cells, k, t);
  }

  /** Taking the least pending task removes the head of the pending list. */
  lemma PendingAfterTake(status: seq<Status>, h: nat)
    requires h <= |status| && forall t :: 0 <= t < h ==> status[t] != NotResolved
    ensures var t := LeastFrom(status, h);
            t < |status| ==> PendingFrom(status, 0) == [t] + PendingFrom(status[t := Resolving], 0)
  {
    var t := LeastFrom(status, h);
    if t < |status| {
      PendingSkip(status, 0, h);
      PendingHead(status, h);
      PendingBelow(status, t, Resolving, t + 1);
      PendingSkip(status[t := Resolving], 0, t + 1);
    }
  }

  // ---------- the loop ----------

  datatype LoopResult<T, R> =
    | LoopDone(server: Server<T, R>, sent: seq<Frame<T>>)
    | LoopGreedy(server: Server<T, R>, sent: seq<Frame<T>>)
    | LoopNoRoom(server: Server<T, R>, sent: seq<Frame<T>>)
    | LoopDropped(server: Server<T, R>, sent: seq<Frame<T>>)

  /** The same result with frames sent earlier in front. */
  function Prepend<T, R>(fs: seq<Frame<T>>, r: LoopResult<T, R>): LoopResult<T, R> {
    r.(sent := fs + r.sent)
  }

  ghost predicate Served<T, R>(s: Server<T, R>, i: nat, s': Server<T, R>, served: nat) {
    && Inv(s') && |s'.conns| == |s.conns| && i < |s.conns| && s'.conns[i].open
    && s'.conns[i].requested + served == s.conns[i].requested
  }

  /** One iteration keeps the tables sound and serves one request or none. */
  lemma IterFacts<T, R>(s: Server<T, R>, i: nat, o: SendOutcome)
    requires Inv(s) && i < |s.conns| && s.conns[i].open && s.conns[i].requested > 0
    ensures CanIterate(s, i)
    ensures SendIter(s, i, o).IterSent? ==> o == Sent && Served(s, i, SendIter(s, i, o).server, 1)
    ensures SendIter(s, i, o).IterRetry? ==> o == NotReady && Served(s, i, SendIter(s, i, o).server, 0)
    ensures SendIter(s, i, o).IterDropped? ==> o == Broken
  {
    CanIterateInv(s, i);
    SendIterInv(s, i, o);
    TakeTaskInv(s, i);
  }

  /** The loop for a given list of socket answers; once the list is used up, sends succeed. */
  function SendLoop<T, R>(s: Server<T, R>, i: nat, answers: seq<SendOutcome>): LoopResult<T, R>
    requires Inv(s) && i < |s.conns| && s.conns[i].open
    decreases |answers|, s.conns[i].requested
  {
    if s.conns[i].requested == 0 then LoopDone(s, [])
    else
      var o := if answers == [] then Sent else answers[0];
      var rest := if answers == [] then [] else answers[1..];
      IterFacts(s, i, o);
      hide Inv, CanIterate, SendIter;
      match SendIter(s, i, o)
      case IterSent(s1, f) => Prepend([f], SendLoop(s1, i, rest))
      case IterRetry(s1) => SendLoop(s1, i, rest)
      case IterDropped(s1) => LoopDropped(s1, [])
      case IterGreedy => LoopGreedy(s, [])
      case IterNoRoom(s1) => LoopNoRoom(s1, [])
  }

  /** One iteration sends the first available task, or leaves what is available as it was. */
  lemma IterAvailable<T, R>(s: Server<T, R>, i: nat, o: SendOutcome)
    requires Inv(s) && i < |s.conns| && s.conns[i].open && s.conns[i].requested > 0 && CanIterate(s, i)
    ensures SendIter(s, i, o).IterGreedy? <==> Available(s, i) == []
    ensures SendIter(s, i, o).IterNoRoom? ==> Demand(s.conns[i]) > 16
    ensures SendIter(s, i, o).IterSent? ==>
              var s1, f := SendIter(s, i, o).server, SendIter(s, i, o).frame;
              && Served(s, i, s1, 1) && Demand(s1.conns[i]) == Demand(s.conns[i]) && s1.tasks == s.tasks
              && Available(s, i) == [f.id as int] + Available(s1, i) && Truthful(s.tasks, f)
    ensures SendIter(s, i, o).IterRetry? ==>
              var s1 := SendIter(s, i, o).server;
              && Served(s, i, s1, 0) && Demand(s1.conns[i]) == Demand(s.conns[i]) && s1.tasks == s.tasks
              && Available(s1, i) == Available(s, i)
  {
    hide LeastFrom, GetTask, Drop, Disconnect, Held, CellsMatch, Counted;
    IterFacts(s, i, o);
    TakeTaskInv(s, i);
    TakeTaskAvailable(s, i);
    AvailableCount(s, i);
    if TakeTask(s, i).Got? {
      SentAvailable(TakeTask(s, i).server, i);
    }
  }

  /** What a successful send does to a connection that has a task in hand. */
  lemma SentAvailable<T, R>(s: Server<T, R>, i: nat)
    requires Inv(s) && i < |s.conns| && s.conns[i].open && s.conns[i].requested > 0 && HasTask(s.conns[i])
    ensures var s' := s.(conns := s.conns[i := AfterSend(s.conns[i])]);
      && Inv(s') && Available(s, i) == [s.conns[i].cells[s.conns[i].sending]] + Available(s', i)
      && Demand(s'.conns[i]) == Demand(s.conns[i])
      && 0 <= s.conns[i].cells[s.conns[i].sending] < |s.tasks|
  {
    TouchInv(s, i, AfterSend(s.conns[i]));
  }

  /** Exactly what is dispatched, and exactly when the loop aborts, whatever the socket answers. */
  lemma {:induction false} DispatchExact<T, R>(s: Server<T, R>, i: nat, answers: seq<SendOutcome>)
    requires Inv(s) && i < |s.conns| && s.conns[i].open
    requires Broken !in answers
    requires Demand(s.conns[i]) <= 16
    ensures var r, all, n := SendLoop(s, i, answers), Available(s, i), s.conns[i].requested;
      && (r.LoopDone? <==> n <= |all|)
      && (r.LoopGreedy? <==> n > |all|)
      && Ids(r.sent) == all[..if n <= |all| then n else |all|]
      && (forall f :: f in r.sent ==> Truthful(s.tasks, f))
      && (r.LoopDone? ==> Served(s, i, r.server, n) && Available(r.server, i) == all[n..])
    decreases |answers|, s.conns[i].requested
  {
    hide Inv, SendIter, Available, Demand, Truthful, CanIterate;
    if s.conns[i].requested != 0 {
      var o := if answers == [] then Sent else answers[0];
      var rest := if answers == [] then [] else answers[1..];
      IterFacts(s, i, o);
      IterAvailable(s, i, o);
      match SendIter(s, i, o)
      case IterSent(s1, f) =>
        DispatchExact(s1, i, rest);
        var tail := SendLoop(s1, i, rest);
        assert Ids([f] + tail.sent) == [f.id as int] + Ids(tail.sent);
      case IterRetry(s1) =>
        DispatchExact(s1, i, rest);
      case _ =>
    }
  }

  /** A refused send keeps the task in hand: the connection holds the first available task and
      sends that very task when the socket is ready. */
  lemma RefusedSendKeepsTask<T, R>(s: Server<T, R>, i: nat)
    requires Inv(s) && i < |s.conns| && s.conns[i].open && s.conns[i].requested > 0 && CanIterate(s, i)
    ensures SendIter(s, i, NotReady).IterRetry? <==> TakeTask(s, i).Got?
    ensures SendIter(s, i, NotReady).IterRetry? ==>
              var w := SendIter(s, i, NotReady).server;
              && Inv(w) && w.conns[i].open && w.conns[i].requested == s.conns[i].requested && CanIterate(w, i)
              && HasTask(w.conns[i]) && Available(s, i) != [] && w.conns[i].cells[w.conns[i].sending] == Available(s, i)[0]
              && SendIter(w, i, Sent).IterSent? && SendIter(w, i, Sent).frame.id == Available(s, i)[0]
              && SendIter(w, i, NotReady) == IterRetry(w)
  {
    hide LeastFrom, GetTask, Drop, Disconnect, Held, CellsMatch, Counted;
    TakeTaskInv(s, i);
    TakeTaskAvailable(s, i);
    if TakeTask(s, i).Got? {
      CanIterateInv(TakeTask(s, i).server, i);
    }
  }

  /** How many of the answers are successful. */
  function Successes(answers: seq<SendOutcome>): nat {
    if answers == [] then 0 else (if answers[0] == Sent then 1 else 0) + Successes(answers[1..])
  }

  /** What a broken send does: the tasks sent before it are the first available ones, and the
      connection is closed; it is met exactly if requests and tasks last until then. */
  lemma {:induction false} BrokenExact<T, R>(s: Server<T, R>, i: nat, before: seq<SendOutcome>, after: seq<SendOutcome>)
    requires Inv(s) && i < |s.conns| && s.conns[i].open && Broken !in before
    requires Demand(s.conns[i]) <= 16
    ensures var r, n, all := SendLoop(s, i, before + [Broken] + after), Successes(before), Available(s, i);
      && (r.LoopDropped? <==> n < s.conns[i].requested && n < |all|)
      && (r.LoopDropped? ==>
            && Ids(r.sent) == all[..n] && (forall f :: f in r.sent ==> Truthful(s.tasks, f))
            && i < |r.server.conns| && !r.server.conns[i].open)
    decreases |before|
  {
    hide Inv, SendIter, Available, Demand, Truthful, CanIterate;
    if s.conns[i].requested != 0 {
      var answers := before + [Broken] + after;
      var o := answers[0];
      IterFacts(s, i, o);
      IterAvailable(s, i, o);
      if before == [] {
        assert o == Broken;
        BrokenCloses(s, i);
      } else {
        assert answers[1..] == before[1..] + [Broken] + after && o == before[0];
        match SendIter(s, i, o)
        case IterSent(s1, f) =>
          BrokenExact(s1, i, before[1..], after);
          var tail := SendLoop(s1, i, answers[1..]);
          assert Ids([f] + tail.sent) == [f.id as int] + Ids(tail.sent);
        case IterRetry(s1) => BrokenExact(s1, i, before[1..], after);
        case _ =>
      }
    }
  }

  lemma BrokenCloses<T, R>(s: Server<T, R>, i: nat)
    requires Inv(s) && i < |s.conns| && s.conns[i].open && s.conns[i].requested > 0 && CanIterate(s, i)
    requires Demand(s.conns[i]) <= 16
    ensures SendIter(s, i, Broken).IterDropped? <==> Available(s, i) != []
    ensures SendIter(s, i, Broken).IterDropped? ==>
              var w := SendIter(s, i, Broken).server; i < |w.conns| && !w.conns[i].open
  {
    hide Inv, Held, Available;
    IterAvailable(s, i, Broken);
    TakeTaskInv(s, i);
  }

  /** Why leaving the loop after a broken send matters: re-entering it, the guard would still
      hold, the connection would still name a cell, and that cell is empty by then. */
  lemma BrokenSendLeavesNoTask<T, R>(s: Server<T, R>, i: nat)
    requires Inv(s) && i < |s.conns| && s.conns[i].open && s.conns[i].requested > 0 && CanIterate(s, i)
    ensures SendIter(s, i, Broken).IterDropped? ==>
              var c := SendIter(s, i, Broken).server.conns[i];
              && c.requested > 0 && HasTask(c)
              && 0 <= c.sending < |c.cells| && c.cells[c.sending] == NO_TASK
    ensures SendIter(s, i, Broken).IterDropped? <==> TakeTask(s, i).Got?
  {
    TakeTaskInv(s, i);
  }

  /** At a handler boundary, where no task is in hand, the "greedy client" exit happens exactly
      when a connection has more open requests than there are pending tasks. */
  lemma GreedyExactly<T, R>(s: Server<T, R>, i: nat, answers: seq<SendOutcome>)
    requires Inv(s) && i < |s.conns| && s.conns[i].open && !HasTask(s.conns[i])
    requires Broken !in answers
    requires Demand(s.conns[i]) <= 16
    ensures SendLoop(s, i, answers).LoopGreedy? <==> s.conns[i].requested > s.numNotResolved
    ensures SendLoop(s, i, answers).LoopDone? <==> s.conns[i].requested <= s.numNotResolved
  {
    hide Inv, Demand;
    DispatchExact(s, i, answers);
    AvailableCount(s, i);
  }

  /** Answers that ask for a retry change neither what is sent nor how the loop ends. */
  lemma RetriesDoNotMatter<T, R>(s: Server<T, R>, i: nat, answers: seq<SendOutcome>, others: seq<SendOutcome>)
    requires Inv(s) && i < |s.conns| && s.conns[i].open
    requires Broken !in answers && Broken !in others
    requires Demand(s.conns[i]) <= 16
    ensures Ids(SendLoop(s, i, answers).sent) == Ids(SendLoop(s, i, others).sent)
    ensures SendLoop(s, i, answers).LoopDone? <==> SendLoop(s, i, others).LoopDone?
  {
    hide Inv, Demand, Available, SendLoop;
    DispatchExact(s, i, answers);
    DispatchExact(s, i, others);
  }
}
