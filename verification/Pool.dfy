/**
 * The task pool the server's arrays stand for: pending tasks, the owner of every task
 * being resolved, and the finished results. Each table operation is one pool operation.
 */
module Pool {
  import opened Config
  import opened ServerModel
  import opened ServerInvariant

  datatype Pool<R> = Pool(pending: set<nat>, owner: map<nat, nat>, done: map<nat, R>)

  // ---------- abstraction ----------

  /** The first connection whose task list holds t, or the length. */
  function FindOwner(conns: seq<Conn>, t: int): (r: nat)
    ensures r <= |conns|
    ensures r < |conns| ==> t in Held(conns[r].cells)
    ensures r == |conns| <==> t !in AllHeld(conns)
  {
    if conns == [] || t in Held(conns[0].cells) then 0 else 1 + FindOwner(conns[1..], t)
  }

  ghost function Tasks(status: seq<Status>, x: Status): set<nat> {
    set t: nat | t < |status| && status[t] == x
  }

  ghost function PoolOf<T, R>(s: Server<T, R>): Pool<R>
    requires Inv(s)
  {
    Pool(Tasks(s.status, NotResolved),
         map t | t in Tasks(s.status, Resolving) :: FindOwner(s.conns, t),
         map t | t in Tasks(s.status, Completed) :: s.rets[t])
  }

  /** The owner map is exact: a connection holds a task precisely when it owns it. */
  lemma OwnerExact<T, R>(s: Server<T, R>, i: nat, t: nat)
    requires Inv(s) && i < |s.conns|
    ensures t as int in Held(s.conns[i].cells) <==> t in PoolOf(s).owner && PoolOf(s).owner[t] == i
  {
    assert AllHeld(s.conns)[t as int] == ResolvingCount(s.status, t);
    if t as int in Held(s.conns[i].cells) {
      HeldIsResolving(s, i, t);
      assert t in Tasks(s.status, Resolving);
    }
  }

  /** An owner map that names, for every Resolving task, a connection that holds it. */
  ghost predicate NamesHolders(status: seq<Status>, conns: seq<Conn>, owner: map<nat, nat>) {
    && owner.Keys == Tasks(status, Resolving)
    && forall t :: t in owner ==> owner[t] < |conns| && t as int in Held(conns[owner[t]].cells)
  }

  lemma OwnerNamesHolders<T, R>(s: Server<T, R>)
    requires Inv(s)
    ensures NamesHolders(s.status, s.conns, PoolOf(s).owner)
  {
    forall t: nat | t in PoolOf(s).owner
      ensures PoolOf(s).owner[t] < |s.conns| && t as int in Held(s.conns[PoolOf(s).owner[t]].cells)
    {
      assert AllHeld(s.conns)[t as int] == ResolvingCount(s.status, t);
    }
  }

  /** Because a task has one holder, such a map is the owner map. */
  lemma OwnerDetermined<T, R>(s: Server<T, R>, owner: map<nat, nat>)
    requires Inv(s) && NamesHolders(s.status, s.conns, owner)
    ensures PoolOf(s).owner == owner
  {
    hide AllHeld, Held, FindOwner, CellsMatch, Counted, ConnShape, OpenCount;
    var o := PoolOf(s).owner;
    OwnerNamesHolders(s);
    assert o.Keys == owner.Keys;
    forall t | t in o ensures o[t] == owner[t] {
      HeldIsResolving(s, o[t], t);
    }
  }

  lemma TasksUpdate(status: seq<Status>, t: nat, x: Status, y: Status)
    requires t < |status|
    ensures Tasks(status[t := x], y) == Tasks(status, y) - {t} + (if x == y then {t} else {})
  {
  }

  /** The last task's share of a set of tasks. */
  lemma TasksLast(status: seq<Status>, x: Status)
    requires status != []
    ensures var n := |status| - 1;
      && n !in Tasks(status[..n], x)
      && Tasks(status, x) == if status[n] == x then Tasks(status[..n], x) + {n} else Tasks(status[..n], x)
  {
  }

  lemma {:induction false} TasksCount(status: seq<Status>, x: Status)
    ensures |Tasks(status, x)| == multiset(status)[x]
  {
    if status == [] {
      assert Tasks(status, x) == {};
    } else {
      var n := |status| - 1;
      TasksLast(status, x);
      TasksCount(status[..n], x);
      hide Tasks;
      assert status == status[..n] + [status[n]];
      assert multiset(status)[x] == multiset(status[..n])[x] + (if status[n] == x then 1 else 0);
    }
  }

  lemma PoolSets<T, R>(s: Server<T, R>)
    requires Inv(s)
    ensures PoolOf(s).pending == Tasks(s.status, NotResolved)
    ensures PoolOf(s).owner.Keys == Tasks(s.status, Resolving)
    ensures PoolOf(s).done.Keys == Tasks(s.status, Completed)
  {
    hide Inv, Tasks, FindOwner;
  }

  /** Pending, owned and done partition the tasks; the two counters are the sizes of the first
      and the last, so the owned tasks are all the others. */
  lemma PoolPartition<T, R>(s: Server<T, R>)
    requires Inv(s)
    ensures var p := PoolOf(s);
      && p.pending !! p.owner.Keys && p.pending !! p.done.Keys && p.owner.Keys !! p.done.Keys
      && (forall t: nat :: t < |s.tasks| <==> t in p.pending || t in p.owner || t in p.done)
      && |p.pending| == s.numNotResolved && |p.done.Keys| == s.numCompleted
      && |p.owner.Keys| == |s.tasks| - s.numNotResolved - s.numCompleted
  {
    hide AllHeld, Held, FindOwner, LeastFrom;
    TasksCount(s.status, NotResolved);
    TasksCount(s.status, Resolving);
    TasksCount(s.status, Completed);
    AllCompleted(s.status);
    PoolSets(s);
    hide PoolOf, ConnShape, CellsMatch, OpenCount;
  }

  /** A task is Resolving exactly when one cell of one open connection holds it. */
  lemma OwnershipBijection<T, R>(s: Server<T, R>, t: nat)
    requires Inv(s)
    ensures (t < |s.status| && s.status[t] == Resolving)
        <==> exists i, k :: 0 <= i < |s.conns| && 0 <= k < |s.conns[i].cells| && s.conns[i].cells[k] == t
    ensures forall i, k, j, l ::
              0 <= i < |s.conns| && 0 <= k < |s.conns[i].cells| && s.conns[i].cells[k] == t &&
              0 <= j < |s.conns| && 0 <= l < |s.conns[j].cells| && s.conns[j].cells[l] == t
              ==> i == j && k == l && s.conns[i].open
  {
    assert AllHeld(s.conns)[t as int] == ResolvingCount(s.status, t);
    forall i | 0 <= i < |s.conns| ensures t as int in s.conns[i].cells <==> t as int in Held(s.conns[i].cells) {
      HeldMember(s.conns[i].cells, t);
    }
    if t < |s.status| && s.status[t] == Resolving {
      var i := FindOwner(s.conns, t);
      var k := IndexOf(s.conns[i].cells, t);
      assert s.conns[i].cells[k] == t;
    }
    forall i, k, j, l |
      0 <= i < |s.conns| && 0 <= k < |s.conns[i].cells| && s.conns[i].cells[k] == t &&
      0 <= j < |s.conns| && 0 <= l < |s.conns[j].cells| && s.conns[j].cells[l] == t
      ensures i == j && k == l && s.conns[i].open
    {
      HeldIsResolving(s, i, t);
      CellsDistinct(s, i);
    }
    if i, k :| 0 <= i < |s.conns| && 0 <= k < |s.conns[i].cells| && s.conns[i].cells[k] == t {
      HeldIsResolving(s, i, t);
    }
  }

  // ---------- pool operations ----------

  ghost predicate IsLeast(p: set<nat>, t: nat) {
    t in p && forall u :: u in p ==> t <= u
  }

  ghost function Assign<R>(p: Pool<R>, i: nat, t: nat): Pool<R> {
    p.(pending := p.pending - {t}, owner := p.owner[t := i])
  }

  ghost function Complete<R>(p: Pool<R>, t: nat, ret: R): Pool<R> {
    p.(owner := p.owner - {t}, done := p.done[t := ret])
  }

  ghost function OwnedBy<R>(p: Pool<R>, i: nat): set<nat> {
    set t | t in p.owner && p.owner[t] == i
  }

  ghost function Release<R>(p: Pool<R>, i: nat): Pool<R> {
    p.(pending := p.pending + OwnedBy(p, i), owner := p.owner - OwnedBy(p, i))
  }

  // ---------- simulation ----------

  lemma HoldersAfterFill(status: seq<Status>, conns: seq<Conn>, owner: map<nat, nat>, i: nat, k: nat, t: nat)
    requires NamesHolders(status, conns, owner) && i < |conns| && k < |conns[i].cells| && t < |status|
    requires conns[i].cells[k] == NO_TASK
    ensures NamesHolders(status[t := Resolving],
                         conns[i := conns[i].(cells := conns[i].cells[k := t])], owner[t := i])
  {
    TasksUpdate(status, t, Resolving, Resolving);
    HeldUpdate(conns[i].cells, k, t);
  }

  lemma HoldersAfterClear(status: seq<Status>, conns: seq<Conn>, owner: map<nat, nat>, i: nat, k: nat, t: nat)
    requires NamesHolders(status, conns, owner) && i < |conns| && k < |conns[i].cells| && t < |status|
    requires conns[i].cells[k] == t
    ensures NamesHolders(status[t := Completed],
                         conns[i := conns[i].(cells := conns[i].cells[k := NO_TASK])], owner - {t})
  {
    TasksUpdate(status, t, Completed, Resolving);
    HeldUpdate(conns[i].cells, k, NO_TASK);
  }

  /** get_task_to_send hands the least pending task to the connection. */
  lemma GetTaskSimulates<T, R>(s: Server<T, R>, i: nat)
    requires Inv(s) && i < |s.conns| && s.conns[i].open
    requires GetTask(s, i).Got?
    ensures var s', k := GetTask(s, i).server, GetTask(s, i).cell;
      var t := s'.conns[i].cells[k];
      Inv(s') && t >= 0 && IsLeast(PoolOf(s).pending, t) && PoolOf(s') == Assign(PoolOf(s), i, t)
  {
    hide AllHeld, Held, FindOwner, CellsMatch, Counted, ConnShape, OpenCount, LeastFrom;
    GetTaskInv(s, i);
    HintedScanIsFullScan(s);
    OwnerNamesHolders(s);
    var s', k := GetTask(s, i).server, GetTask(s, i).cell;
    var t := LeastFrom(s.status, s.hint);
    TasksUpdate(s.status, t, Resolving, NotResolved);
    TasksUpdate(s.status, t, Resolving, Completed);
    HoldersAfterFill(s.status, s.conns, PoolOf(s).owner, i, k, t);
    OwnerDetermined(s', PoolOf(s).owner[t := i]);
    SameDone(s, s');
  }

  /** Results of finished tasks that were not touched look the same in both pools. */
  lemma SameDone<T, R>(s: Server<T, R>, s': Server<T, R>)
    requires Inv(s) && Inv(s') && s'.rets == s.rets
    requires Tasks(s'.status, Completed) == Tasks(s.status, Completed)
    ensures PoolOf(s').done == PoolOf(s).done
  {
  }

  /** push_return_value accepts exactly a task this connection owns, and completes it. */
  lemma PushSimulates<T, R>(s: Server<T, R>, i: nat, t: nat, ret: R)
    requires Inv(s) && i < |s.conns| && t < |s.rets|
    requires s.conns[i].sending != IndexOf(s.conns[i].cells, t)
    ensures Push(s, i, t, ret).Pushed? <==> t in PoolOf(s).owner && PoolOf(s).owner[t] == i
    ensures Push(s, i, t, ret).Pushed? ==>
              var s' := Push(s, i, t, ret).server;
              Inv(s') && PoolOf(s') == Complete(PoolOf(s), t, ret)
  {
    hide AllHeld, Held, FindOwner, CellsMatch, Counted, ConnShape, OpenCount;
    PushInv(s, i, t, ret);
    PushOutcome(s, i, t, ret);
    OwnerExact(s, i, t);
    if Push(s, i, t, ret).Pushed? {
      var s' := Push(s, i, t, ret).server;
      var p := PoolOf(s);
      HeldIsResolving(s, i, t);
      OwnerNamesHolders(s);
      HoldersAfterClear(s.status, s.conns, p.owner, i, IndexOf(s.conns[i].cells, t), t);
      OwnerDetermined(s', p.owner - {t});
      TasksUpdate(s.status, t, Completed, NotResolved);
      DoneAfter(s, s', t, ret);
    }
  }

  lemma DoneAfter<T, R>(s: Server<T, R>, s': Server<T, R>, t: nat, ret: R)
    requires Inv(s) && Inv(s') && t < |s.rets| && t < |s.status|
    requires s'.rets == s.rets[t := ret] && s'.status == s.status[t := Completed]
    ensures PoolOf(s').done == PoolOf(s).done[t := ret]
  {
    TasksUpdate(s.status, t, Completed, Completed);
  }

  /** A disconnect gives all of the connection's tasks, and nothing else, back to the pool. */
  lemma DisconnectSimulates<T, R>(s: Server<T, R>, i: nat)
    requires Inv(s) && i < |s.conns| && s.conns[i].open && s.numClients > 0
    ensures Inv(Disconnect(s, i)) && PoolOf(Disconnect(s, i)) == Release(PoolOf(s), i)
  {
    hide AllHeld, Held, FindOwner, CellsMatch, Counted, ConnShape, OpenCount;
    DisconnectInv(s, i);
    DropExact(s, i);
    OwnerNamesHolders(s);
    var s' := Disconnect(s, i);
    var gone := OwnedBy(PoolOf(s), i);
    forall u: nat ensures u in gone <==> u as int in Held(s.conns[i].cells)
                  ensures u in gone <==> u as int in s.conns[i].cells
    {
      OwnerExact(s, i, u);
      HeldMember(s.conns[i].cells, u);
    }
    ReturnedTasks(s.status, s.conns[i].cells, gone);
    assert NamesHolders(s'.status, s'.conns, PoolOf(s).owner - gone);
    OwnerDetermined(s', PoolOf(s).owner - gone);
    SameDone(s, s');
  }

  lemma ReturnedTasks(status: seq<Status>, cells: seq<int>, gone: set<nat>)
    requires forall u: nat :: u in gone <==> u as int in cells
    requires forall u :: u in gone ==> u < |status| && status[u] == Resolving
    ensures Tasks(Returned(status, cells), NotResolved) == Tasks(status, NotResolved) + gone
    ensures Tasks(Returned(status, cells), Completed) == Tasks(status, Completed)
    ensures Tasks(Returned(status, cells), Resolving) == Tasks(status, Resolving) - gone
  {
  }

  /** Accepting a connection does not touch the pool. */
  lemma AcceptSimulates<T, R>(s: Server<T, R>)
    requires Inv(s) && Accept(s).Accepted?
    ensures Inv(Accept(s).server) && PoolOf(Accept(s).server) == PoolOf(s)
  {
    hide AllHeld, Held, FindOwner, CellsMatch, Counted, ConnShape, OpenCount;
    AcceptInv(s);
    OwnerNamesHolders(s);
    OwnerDetermined(Accept(s).server, PoolOf(s).owner);
    SameDone(s, Accept(s).server);
  }
}
