/**
 * What the server's tables keep: counters equal the true counts, the hint is sound,
 * and a task is Resolving exactly when one cell of one open connection holds it.
 */
module ServerInvariant {
  import opened Config
  import opened ServerModel

  // ---------- the invariant ----------

  predicate ConnShape(c: Conn, n: nat) {
    && |c.cells| == MAX_TASKS_PER_CLIENT
    && (forall k :: 0 <= k < |c.cells| ==> NO_TASK <= c.cells[k] < n)
    && (c.open ==> c.sending == NO_TASK || (0 <= c.sending < |c.cells| && c.cells[c.sending] != NO_TASK))
    && (!c.open ==> forall k :: 0 <= k < |c.cells| ==> c.cells[k] == NO_TASK)
  }

  /** One cell per Resolving task and none for any other number. */
  ghost predicate CellsMatch(status: seq<Status>, held: multiset<int>) {
    forall t: int :: held[t] == ResolvingCount(status, t)
  }

  function ResolvingCount(status: seq<Status>, t: int): nat {
    if 0 <= t < |status| && status[t] == Resolving then 1 else 0
  }

  ghost predicate Counted(status: seq<Status>, numNotResolved: int, numCompleted: int) {
    && numNotResolved == multiset(status)[NotResolved]
    && numCompleted == multiset(status)[Completed]
  }

  ghost predicate Inv<T, R>(s: Server<T, R>) {
    && |s.rets| == |s.status| == |s.tasks|
    && Counted(s.status, s.numNotResolved, s.numCompleted)
    && s.hint <= |s.status|
    && (forall t :: 0 <= t < s.hint ==> s.status[t] != NotResolved)
    && (forall i :: 0 <= i < |s.conns| ==> ConnShape(s.conns[i], |s.tasks|))
    && CellsMatch(s.status, AllHeld(s.conns))
    && s.numClients == OpenCount(s.conns)
    && (s.listening <==> s.numClients < |s.conns|)
  }

  /** All connections but i are as they were. */
  ghost predicate OthersSame(conns: seq<Conn>, i: nat, conns': seq<Conn>) {
    |conns'| == |conns| && forall j :: 0 <= j < |conns| && j != i ==> conns'[j] == conns[j]
  }

  // ---------- counting lemmas ----------

  lemma {:induction false} AllHeldUpdate(conns: seq<Conn>, i: nat, c: Conn)
    requires i < |conns|
    ensures Held(conns[i].cells) <= AllHeld(conns)
    ensures AllHeld(conns[i := c]) == AllHeld(conns) - Held(conns[i].cells) + Held(c.cells)
  {
    hide Held;
    if i == 0 {
      assert conns[i := c][1..] == conns[1..];
    } else {
      assert conns[i := c][1..] == conns[1..][i - 1 := c];
      AllHeldUpdate(conns[1..], i - 1, c);
    }
  }

  lemma AllHeldSame(conns: seq<Conn>, i: nat, c: Conn)
    requires i < |conns| && c.cells == conns[i].cells
    ensures AllHeld(conns[i := c]) == AllHeld(conns)
  {
    AllHeldUpdate(conns, i, c);
  }

  lemma {:induction false} OpenCountUpdate(conns: seq<Conn>, i: nat, c: Conn)
    requires i < |conns|
    ensures OpenCount(conns[i := c]) == OpenCount(conns) - (if conns[i].open then 1 else 0) + (if c.open then 1 else 0)
    ensures OpenCount(conns) <= |conns|
    ensures conns[i].open ==> OpenCount(conns) > 0
    ensures !conns[i].open ==> OpenCount(conns) < |conns|
  {
    OpenCountBound(conns[1..]);
    if i == 0 {
      assert conns[i := c][1..] == conns[1..];
    } else {
      assert conns[i := c][1..] == conns[1..][i - 1 := c];
      OpenCountUpdate(conns[1..], i - 1, c);
    }
  }

  lemma {:induction false} OpenCountLast(conns: seq<Conn>, c: Conn)
    ensures OpenCount(conns + [c]) == OpenCount(conns) + (if c.open then 1 else 0)
  {
    if conns != [] {
      assert (conns + [c])[1..] == conns[1..] + [c];
      OpenCountLast(conns[1..], c);
    } else {
      assert [c][1..] == [];
    }
  }

  ghost function OpenCells(conns: seq<Conn>): set<nat> {
    set i: nat | i < |conns| && conns[i].open
  }

  /** The number of open connections is the number of cells in use. */
  lemma {:induction false} OpenCountIsSize(conns: seq<Conn>)
    ensures OpenCount(conns) == |OpenCells(conns)|
  {
    if conns == [] {
      assert OpenCells(conns) == {};
    } else {
      var n := |conns| - 1;
      assert conns == conns[..n] + [conns[n]];
      OpenCountLast(conns[..n], conns[n]);
      OpenCountIsSize(conns[..n]);
      OpenCellsLast(conns);
    }
  }

  lemma OpenCellsLast(conns: seq<Conn>)
    requires conns != []
    ensures var n := |conns| - 1;
      |OpenCells(conns)| == |OpenCells(conns[..n])| + (if conns[n].open then 1 else 0)
  {
    var n := |conns| - 1;
    if conns[n].open {
      assert OpenCells(conns) == OpenCells(conns[..n]) + {n};
    } else {
      assert OpenCells(conns) == OpenCells(conns[..n]);
    }
  }

  /** No open connection is counted exactly if none is open. */
  lemma {:induction false} NobodyLeft(conns: seq<Conn>)
    ensures OpenCount(conns) == 0 <==> forall i :: 0 <= i < |conns| ==> !conns[i].open
  {
    if conns != [] {
      NobodyLeft(conns[1..]);
      assert forall i :: 1 <= i < |conns| ==> conns[i] == conns[1..][i - 1];
    }
  }

  lemma {:induction false} OpenCountBound(conns: seq<Conn>)
    ensures OpenCount(conns) <= |conns|
    ensures OpenCount(conns) == |conns| <==> FreeConn(conns) == |conns|
  {
    if conns != [] {
      OpenCountBound(conns[1..]);
    }
  }

  lemma HeldUpdate(cells: seq<int>, k: nat, t: int)
    requires k < |cells|
    ensures cells[k] == NO_TASK && t != NO_TASK ==> Held(cells[k := t]) == Held(cells) + multiset{t}
    ensures cells[k] != NO_TASK && t == NO_TASK ==>
              cells[k] in Held(cells) && Held(cells[k := t]) == Held(cells) - multiset{cells[k]}
  {
    assert cells[k] in multiset(cells);
    assert multiset(cells[k := t]) == multiset(cells) - multiset{cells[k]} + multiset{t};
  }

  lemma HeldMember(cells: seq<int>, t: int)
    requires t != NO_TASK
    ensures t in Held(cells) <==> t in cells
    ensures t in cells <==> IndexOf(cells, t) < |cells|
  {
  }

  /** One status changed: every count moves by the obvious amount. */
  lemma CountsAfter(status: seq<Status>, t: nat, x: Status, y: Status)
    requires t < |status|
    ensures multiset(status[t := x])[y]
         == multiset(status)[y] - (if status[t] == y then 1 else 0) + (if x == y then 1 else 0)
    ensures multiset(status)[status[t]] > 0
  {
    assert status[t] in multiset(status);
    assert multiset(status[t := x]) == multiset(status) - multiset{status[t]} + multiset{x};
  }

  /** One cell filled, or one cell emptied, as all task lists see it. */
  lemma AllHeldAfterCell(conns: seq<Conn>, i: nat, k: nat, t: int)
    requires i < |conns| && k < |conns[i].cells|
    ensures var all := AllHeld(conns[i := conns[i].(cells := conns[i].cells[k := t])]);
      && (conns[i].cells[k] == NO_TASK && t != NO_TASK ==> all == AllHeld(conns) + multiset{t})
      && (conns[i].cells[k] != NO_TASK && t == NO_TASK ==> all == AllHeld(conns) - multiset{conns[i].cells[k]})
  {
    var c := conns[i].(cells := conns[i].cells[k := t]);
    HeldUpdate(conns[i].cells, k, t);
    AllHeldUpdate(conns, i, c);
    Exchange(AllHeld(conns), Held(conns[i].cells), Held(c.cells));
  }

  lemma Exchange(all: multiset<int>, h: multiset<int>, h': multiset<int>)
    requires h <= all
    ensures forall t :: h' == h + multiset{t} ==> all - h + h' == all + multiset{t}
    ensures forall t :: t in h && h' == h - multiset{t} ==> all - h + h' == all - multiset{t}
  {
  }

  lemma HeldBlank(n: nat)
    ensures Held(seq(n, _ => NO_TASK)) == multiset{}
  {
    var b := seq(n, _ => NO_TASK);
    forall t: int ensures Held(b)[t] == 0 {
      if t != NO_TASK && t in multiset(b) {
        assert t in b;
      }
    }
  }

  lemma HeldSize(cells: seq<int>)
    ensures |Held(cells)| == |cells| - multiset(cells)[NO_TASK]
    ensures |Held(cells)| == |cells| <==> IndexOf(cells, NO_TASK) == |cells|
  {
    assert multiset(cells)[NO_TASK] > 0 <==> NO_TASK in cells;
  }

  lemma {:induction false} ClosedAllEmpty(conns: seq<Conn>)
    requires forall i :: 0 <= i < |conns| ==> Held(conns[i].cells) == multiset{}
    ensures AllHeld(conns) == multiset{}
  {
    if conns != [] {
      forall i | 0 <= i < |conns[1..]| ensures Held(conns[1..][i].cells) == multiset{} {
        assert conns[1..][i] == conns[i + 1];
      }
      ClosedAllEmpty(conns[1..]);
    }
  }

  /** All Completed means the counter says so, and conversely. */
  lemma {:induction false} AllCompleted(status: seq<Status>)
    ensures multiset(status)[NotResolved] + multiset(status)[Resolving] + multiset(status)[Completed] == |status|
    ensures multiset(status)[Completed] == |status| <==> forall t :: 0 <= t < |status| ==> status[t] == Completed
  {
    if status != [] {
      var n := |status| - 1;
      assert status == status[..n] + [status[n]];
      assert forall y :: multiset(status)[y] == multiset(status[..n])[y] + (if status[n] == y then 1 else 0);
      AllCompleted(status[..n]);
    }
  }

  // ---------- initial state ----------

  lemma InitInv<T, R>(tasks: seq<T>, rets: seq<R>, maxClients: nat)
    requires |rets| == |tasks| && maxClients > 0
    ensures Inv(Init(tasks, rets, maxClients))
  {
    var s := Init(tasks, rets, maxClients);
    HeldBlank(MAX_TASKS_PER_CLIENT);
    ClosedAllEmpty(s.conns);
    NobodyLeft(s.conns);
    UniformCount(|tasks|);
  }

  lemma {:induction false} UniformCount(n: nat)
    ensures var u := seq(n, _ => NotResolved); multiset(u)[NotResolved] == n && multiset(u)[Completed] == 0
  {
    var u := seq(n, _ => NotResolved);
    if n > 0 {
      var v := seq(n - 1, _ => NotResolved);
      assert u == v + [NotResolved];
      UniformCount(n - 1);
    } else {
      assert u == [];
    }
  }

  // ---------- get_task_to_send ----------

  /** The hinted scan agrees with a scan of the whole table. */
  lemma HintedScanIsFullScan<T, R>(s: Server<T, R>)
    requires Inv(s)
    ensures LeastFrom(s.status, s.hint) == LeastFrom(s.status, 0)
    ensures LeastFrom(s.status, s.hint) == |s.status| <==> s.numNotResolved == 0
  {
    var t := LeastFrom(s.status, s.hint);
    if t < |s.status| {
      assert NotResolved in multiset(s.status);
    } else {
      assert NotResolved !in s.status;
    }
  }

  /** When the scan finds nothing, and when the task list has no free cell. */
  lemma GetTaskOutcome<T, R>(s: Server<T, R>, i: nat)
    requires Inv(s) && i < |s.conns| && s.conns[i].open
    ensures GetTask(s, i).Greedy? <==> s.numNotResolved == 0
    ensures GetTask(s, i).NoRoom? <==> s.numNotResolved != 0 && |Held(s.conns[i].cells)| == 16
  {
    HintedScanIsFullScan(s);
    HeldSize(s.conns[i].cells);
  }

  lemma GetTaskInv<T, R>(s: Server<T, R>, i: nat)
    requires Inv(s) && i < |s.conns| && s.conns[i].open
    ensures GetTask(s, i).Got? ==> Inv(GetTask(s, i).server)
  {
    hide AllHeld, Held, OpenCount, CellsMatch, Counted;
    if GetTask(s, i).Got? {
      var t := LeastFrom(s.status, s.hint);
      var k := IndexOf(s.conns[i].cells, NO_TASK);
      CellChangeInv(s, i, k, t, t, Resolving);
    }
  }

  /** The shared step of get and push: one cell and one status change together. */
  lemma CellChangeInv<T, R>(s: Server<T, R>, i: nat, k: nat, v: int, t: nat, x: Status)
    requires Inv(s) && i < |s.conns| && s.conns[i].open && k < |s.conns[i].cells| && t < |s.status|
    requires s.conns[i].sending != k
    requires (x == Resolving && s.status[t] == NotResolved && s.conns[i].cells[k] == NO_TASK && v == t)
          || (x == Completed && s.status[t] == Resolving && s.conns[i].cells[k] == t && v == NO_TASK)
    ensures var s' := s.(status := s.status[t := x], conns := s.conns[i := s.conns[i].(cells := s.conns[i].cells[k := v])]);
      && CellsMatch(s'.status, AllHeld(s'.conns))
      && OpenCount(s'.conns) == OpenCount(s.conns)
      && Counted(s'.status, s.numNotResolved - (if x == Resolving then 1 else 0),
                 s.numCompleted + (if x == Completed then 1 else 0))
  {
    var c := s.conns[i].(cells := s.conns[i].cells[k := v]);
    AllHeldAfterCell(s.conns, i, k, v);
    OpenCountUpdate(s.conns, i, c);
    CountsAfter(s.status, t, x, NotResolved);
    CountsAfter(s.status, t, x, Completed);
    CellsMatchAfter(s.status, AllHeld(s.conns), t, x, AllHeld(s.conns[i := c]));
  }

  /** Moving one task into or out of the Resolving state together with its cell. */
  lemma CellsMatchAfter(status: seq<Status>, held: multiset<int>, t: nat, x: Status, held': multiset<int>)
    requires CellsMatch(status, held) && t < |status|
    requires (x == Resolving && status[t] != Resolving && held' == held + multiset{t})
          || (x != Resolving && status[t] == Resolving && held' == held - multiset{t})
    ensures CellsMatch(status[t := x], held')
  {
    assert held[t] == ResolvingCount(status, t);
  }

  // ---------- push_return_value ----------

  /** A task some cell holds is Resolving, and no second cell of any connection holds it. */
  lemma HeldIsResolving<T, R>(s: Server<T, R>, i: nat, t: int)
    requires Inv(s) && i < |s.conns| && t in Held(s.conns[i].cells)
    ensures 0 <= t < |s.status| && s.status[t] == Resolving
    ensures Held(s.conns[i].cells)[t] == 1
    ensures forall j :: 0 <= j < |s.conns| && j != i ==> t !in Held(s.conns[j].cells)
    ensures s.conns[i].open
  {
    AllHeldUpdate(s.conns, i, s.conns[i]);
    assert AllHeld(s.conns)[t] >= Held(s.conns[i].cells)[t] > 0;
    forall j | 0 <= j < |s.conns| && j != i ensures t !in Held(s.conns[j].cells) {
      var c := ClosedConn();
      HeldBlank(MAX_TASKS_PER_CLIENT);
      AllHeldUpdate(s.conns, i, c);
      AllHeldUpdate(s.conns[i := c], j, c);
      assert AllHeld(s.conns[i := c])[t] == AllHeld(s.conns)[t] - Held(s.conns[i].cells)[t];
    }
  }

  lemma PushOutcome<T, R>(s: Server<T, R>, i: nat, t: nat, ret: R)
    requires i < |s.conns| && t < |s.rets| == |s.status|
    ensures Push(s, i, t, ret).Pushed? <==> t as int in Held(s.conns[i].cells)
  {
    HeldMember(s.conns[i].cells, t);
  }

  lemma PushInv<T, R>(s: Server<T, R>, i: nat, t: nat, ret: R)
    requires Inv(s) && i < |s.conns| && t < |s.rets|
    ensures Push(s, i, t, ret).Pushed? && s.conns[i].sending != IndexOf(s.conns[i].cells, t) ==>
              Inv(Push(s, i, t, ret).server)
  {
    hide AllHeld, Held, OpenCount, CellsMatch, Counted, IndexOf;
    HeldMember(s.conns[i].cells, t);
    var k := IndexOf(s.conns[i].cells, t);
    if k < |s.conns[i].cells| && s.conns[i].sending != k {
      HeldIsResolving(s, i, t);
      CellChangeInv(s, i, k, NO_TASK, t, Completed);
    }
  }

  // ---------- drop_resolving_tasks ----------

  /** Returning one more cell. */
  lemma ReturnedStep(status: seq<Status>, cells: seq<int>)
    requires cells != []
    ensures var n := |cells| - 1;
            Returned(status, cells) ==
            if 0 <= cells[n] < |status| then Returned(status, cells[..n])[cells[n] := NotResolved]
            else Returned(status, cells[..n])
  {
    var n := |cells| - 1;
    assert cells == cells[..n] + [cells[n]];
    forall t | 0 <= t < |status| ensures t in cells <==> t in cells[..n] || t == cells[n] {
    }
    assert Returned(status, cells) ==
           if 0 <= cells[n] < |status| then Returned(status, cells[..n])[cells[n] := NotResolved]
           else Returned(status, cells[..n]);
  }

  /** The last cell's share of a task list. */
  lemma HeldLast(cells: seq<int>)
    requires cells != []
    ensures var n := |cells| - 1;
      && Held(cells) == Held(cells[..n]) + (if cells[n] == NO_TASK then multiset{} else multiset{cells[n]})
      && |Held(cells)| == |Held(cells[..n])| + (if cells[n] == NO_TASK then 0 else 1)
  {
    var n := |cells| - 1;
    assert cells == cells[..n] + [cells[n]];
    assert multiset(cells) == multiset(cells[..n]) + multiset{cells[n]};
  }

  predicate Distinct(cells: seq<int>) {
    forall j, k :: 0 <= j < k < |cells| && cells[j] != NO_TASK ==> cells[j] != cells[k]
  }

  /** Returning distinct Resolving tasks moves exactly that many from one count to the other. */
  lemma {:induction false} ReturnedCounts(status: seq<Status>, cells: seq<int>)
    requires forall k :: 0 <= k < |cells| ==> NO_TASK <= cells[k] < |status|
    requires forall k :: 0 <= k < |cells| && cells[k] >= 0 ==> status[cells[k]] == Resolving
    requires Distinct(cells)
    ensures multiset(Returned(status, cells))[NotResolved] == multiset(status)[NotResolved] + |Held(cells)|
    ensures multiset(Returned(status, cells))[Completed] == multiset(status)[Completed]
  {
    if cells == [] {
      assert Returned(status, cells) == status;
    } else {
      var n := |cells| - 1;
      var front := cells[..n];
      ReturnedCounts(status, front);
      ReturnedStep(status, cells);
      HeldLast(cells);
      if cells[n] >= 0 {
        assert cells[n] !in front;
        CountsAfter(Returned(status, front), cells[n], NotResolved, NotResolved);
        CountsAfter(Returned(status, front), cells[n], NotResolved, Completed);
      }
    }
  }

  /** A value found at two positions counts at least twice. */
  lemma {:induction false} TwicePresent(cells: seq<int>, j: nat, k: nat)
    requires j < k < |cells| && cells[j] == cells[k] != NO_TASK
    ensures Held(cells)[cells[j]] >= 2
  {
    var t := cells[j];
    assert cells == cells[..k] + cells[k..];
    assert t in cells[..k] && t in cells[k..];
    assert multiset(cells) == multiset(cells[..k]) + multiset(cells[k..]);
    assert multiset(cells[..k])[t] >= 1 && multiset(cells[k..])[t] >= 1;
  }

  lemma CellsDistinct<T, R>(s: Server<T, R>, i: nat)
    requires Inv(s) && i < |s.conns|
    ensures Distinct(s.conns[i].cells)
    ensures forall k :: 0 <= k < |s.conns[i].cells| && s.conns[i].cells[k] >= 0 ==>
              s.status[s.conns[i].cells[k]] == Resolving
  {
    var cells := s.conns[i].cells;
    forall k | 0 <= k < |cells| && cells[k] >= 0 ensures s.status[cells[k]] == Resolving {
      HeldMember(cells, cells[k]);
      HeldIsResolving(s, i, cells[k]);
    }
    forall j, k | 0 <= j < k < |cells| && cells[j] != NO_TASK ensures cells[j] != cells[k] {
      if cells[j] == cells[k] {
        TwicePresent(cells, j, k);
        HeldIsResolving(s, i, cells[j]);
      }
    }
  }

  /** The dropped connection's tasks, and no others, become NotResolved, and its task list is
      emptied; nothing else moves. */
  lemma DropExact<T, R>(s: Server<T, R>, i: nat)
    requires Inv(s) && i < |s.conns|
    ensures var d := Drop(s, i);
      && (forall t :: 0 <= t < |s.status| ==>
            d.status[t] == if t in Held(s.conns[i].cells) then NotResolved else s.status[t])
      && |d.conns[i].cells| == |s.conns[i].cells| && (forall k :: 0 <= k < |d.conns[i].cells| ==> d.conns[i].cells[k] == -1)
      && d.conns[i] == s.conns[i].(cells := d.conns[i].cells) && |d.conns| == |s.conns|
      && d.tasks == s.tasks && d.numClients == s.numClients && d.listening == s.listening
      && Held(d.conns[i].cells) == multiset{}
      && (forall j :: 0 <= j < |s.conns| && j != i ==> d.conns[j] == s.conns[j])
      && d.rets == s.rets && d.numCompleted == s.numCompleted
      && d.numNotResolved == s.numNotResolved + |Held(s.conns[i].cells)|
      && d.hint <= s.hint
      && (forall t :: t in Held(s.conns[i].cells) ==> d.hint <= t)
      && (d.hint == s.hint || d.hint as int in Held(s.conns[i].cells))
  {
    HeldBlank(|s.conns[i].cells|);
    forall t: int | t != NO_TASK ensures t in Held(s.conns[i].cells) <==> t in s.conns[i].cells {
      HeldMember(s.conns[i].cells, t);
    }
  }

  lemma DropCells<T, R>(s: Server<T, R>, i: nat)
    requires Inv(s) && i < |s.conns|
    ensures CellsMatch(Drop(s, i).status, AllHeld(Drop(s, i).conns))
  {
    hide AllHeld, OpenCount, Counted, ConnShape, LowerHint;
    var c := s.conns[i];
    var d := Drop(s, i);
    HeldBlank(|c.cells|);
    AllHeldUpdate(s.conns, i, d.conns[i]);
    forall t: int ensures AllHeld(d.conns)[t] == ResolvingCount(d.status, t) {
      assert AllHeld(s.conns)[t] == ResolvingCount(s.status, t);
      if t in Held(c.cells) {
        HeldIsResolving(s, i, t);
      }
      if t != NO_TASK { HeldMember(c.cells, t); }
    }
  }

  lemma DropCounts<T, R>(s: Server<T, R>, i: nat)
    requires Inv(s) && i < |s.conns|
    ensures Counted(Drop(s, i).status, Drop(s, i).numNotResolved, Drop(s, i).numCompleted)
  {
    CellsDistinct(s, i);
    ReturnedCounts(s.status, s.conns[i].cells);
  }

  lemma DropHint<T, R>(s: Server<T, R>, i: nat)
    requires Inv(s) && i < |s.conns|
    ensures forall t :: 0 <= t < Drop(s, i).hint ==> Drop(s, i).status[t] != NotResolved
  {
  }

  // ---------- connection table ----------

  lemma DisconnectInv<T, R>(s: Server<T, R>, i: nat)
    requires Inv(s) && i < |s.conns| && s.conns[i].open
    ensures s.numClients > 0 && Inv(Disconnect(s, i))
  {
    hide AllHeld, Held, OpenCount, CellsMatch, Counted, LowerHint;
    OpenCountUpdate(s.conns, i, s.conns[i]);
    var d, e := Drop(s, i), Disconnect(s, i);
    DropCells(s, i);
    DropCounts(s, i);
    DropHint(s, i);
    AllHeldSame(d.conns, i, e.conns[i]);
    OpenCountUpdate(s.conns, i, e.conns[i]);
    assert e.conns == d.conns[i := e.conns[i]] == s.conns[i := e.conns[i]];
  }

  /** The accept search fails exactly on a full table; otherwise the table stays sound. */
  lemma AcceptInv<T, R>(s: Server<T, R>)
    requires Inv(s)
    ensures Accept(s).TableFull? <==> s.numClients == |s.conns|
    ensures Accept(s).TableFull? <==> !s.listening
    ensures Accept(s).Accepted? ==> Inv(Accept(s).server)
  {
    OpenCountBound(s.conns);
    if Accept(s).Accepted? {
      var i := Accept(s).conn;
      var c := Accept(s).server.conns[i];
      OpenCountUpdate(s.conns, i, c);
      AllHeldSame(s.conns, i, c);
    }
  }

  /** Changing bookkeeping fields of one connection, not its cells. */
  lemma TouchInv<T, R>(s: Server<T, R>, i: nat, c: Conn)
    requires Inv(s) && i < |s.conns| && c.cells == s.conns[i].cells && c.open == s.conns[i].open
    requires ConnShape(c, |s.tasks|)
    ensures Inv(s.(conns := s.conns[i := c]))
  {
    AllHeldSame(s.conns, i, c);
    OpenCountUpdate(s.conns, i, c);
  }

  // ---------- event loop switches ----------

  lemma ReceiveInv<T, R>(s: Server<T, R>, i: nat, f: Frame<R>)
    requires Inv(s) && i < |s.conns| && s.conns[i].open && s.numClients > 0
    requires f.cmd == CMD_RESULT ==> f.id < |s.rets| && s.conns[i].sending != IndexOf(s.conns[i].cells, f.id)
    ensures Receive(s, i, f).Handled? ==> Inv(Receive(s, i, f).server)
    ensures Receive(s, i, f).Dropped? ==> Inv(Receive(s, i, f).server)
  {
    hide AllHeld, Held, OpenCount, CellsMatch, Counted, Disconnect;
    if f.cmd == CMD_REQUEST_FOR_DATA {
      TouchInv(s, i, Request(s, i).conns[i]);
    } else if f.cmd == CMD_RESULT {
      PushInv(s, i, f.id, f.payload);
      if Push(s, i, f.id, f.payload).Pushed? {
        var s1 := Push(s, i, f.id, f.payload).server;
        TouchInv(s1, i, Request(s1, i).conns[i]);
      }
    } else {
      DisconnectInv(s, i);
    }
  }

  lemma CanIterateInv<T, R>(s: Server<T, R>, i: nat)
    requires Inv(s) && i < |s.conns| && s.conns[i].open && s.conns[i].requested > 0
    ensures CanIterate(s, i)
  {
    OpenCountUpdate(s.conns, i, s.conns[i]);
  }

  lemma TakeTaskInv<T, R>(s: Server<T, R>, i: nat)
    requires Inv(s) && i < |s.conns| && s.conns[i].open && CanIterate(s, i)
    ensures TakeTask(s, i).Greedy? <==> s.conns[i].sending == NO_TASK && s.numNotResolved == 0
    ensures TakeTask(s, i).NoRoom? <==>
              s.conns[i].sending == NO_TASK && s.numNotResolved != 0 && |Held(s.conns[i].cells)| == 16
    ensures TakeTask(s, i).Got? ==>
              var s1, k := TakeTask(s, i).server, TakeTask(s, i).cell;
              && Inv(s1) && |s1.conns| == |s.conns| && s1.conns[i].sending == k
              && s1.conns[i].open && s1.conns[i].requested == s.conns[i].requested
  {
    GetTaskInv(s, i);
    GetTaskOutcome(s, i);
    if TakeTask(s, i).Got? && s.conns[i].sending == NO_TASK {
      var s1 := GetTask(s, i).server;
      var k := GetTask(s, i).cell;
      TouchInv(s1, i, s1.conns[i].(sending := k));
    }
  }

  lemma SendIterInv<T, R>(s: Server<T, R>, i: nat, o: SendOutcome)
    requires Inv(s) && i < |s.conns| && s.conns[i].open && CanIterate(s, i)
    ensures SendIter(s, i, o).IterSent? ==> Inv(SendIter(s, i, o).server)
    ensures SendIter(s, i, o).IterRetry? ==> Inv(SendIter(s, i, o).server)
    ensures SendIter(s, i, o).IterDropped? ==> Inv(SendIter(s, i, o).server)
  {
    hide AllHeld, Held, OpenCount, CellsMatch, Counted, Disconnect, TakeTask;
    TakeTaskInv(s, i);
    if TakeTask(s, i).Got? {
      var s1 := TakeTask(s, i).server;
      TouchInv(s1, i, AfterSend(s1.conns[i]));
      DisconnectInv(s1, i);
    }
  }
}
