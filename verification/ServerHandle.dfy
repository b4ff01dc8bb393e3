/**
 * The server's tables as the event loop works on them: arrays and counters updated in
 * place. Every method is proved against the table operation of ServerModel it carries out.
 */
module ServerHandle {
  import opened Config
  import opened ServerModel
  import opened ServerInvariant
  import opened Dispatch
  import opened ServerEffects

  class Connection {
    var open: bool
    var requested: nat
    var sending: int
    var armed: bool
    const cells: array<int>

    ghost function View(): Conn
      reads this, cells
    {
      Conn(open, requested, sending, cells[..], armed)
    }

    constructor ()
      ensures fresh(cells) && View() == ClosedConn()
    {
      open, requested, sending, armed := false, 0, NO_TASK, false;
      cells := new int[MAX_TASKS_PER_CLIENT];
      new;
      for j := 0 to MAX_TASKS_PER_CLIENT
        invariant !open && requested == 0 && sending == NO_TASK && !armed
        invariant forall k :: 0 <= k < j ==> cells[k] == NO_TASK
      {
        cells[j] := NO_TASK;
      }
      assert cells[..] == EmptyCells();
    }

    /** The first position of v in the task list, or its length. */
    method Find(v: int) returns (k: nat)
      ensures k == IndexOf(cells[..], v)
    {
      k := 0;
      while k < cells.Length
        invariant k <= cells.Length
        invariant forall j :: 0 <= j < k ==> cells[j] != v
      {
        if cells[k] == v { return; }
        k := k + 1;
      }
    }
  }

  /** n fresh connections, none in use. */
  method NewTable(n: nat) returns (conns: seq<Connection>)
    ensures |conns| == n
    ensures forall i :: 0 <= i < n ==> fresh(conns[i]) && fresh(conns[i].cells) && conns[i].View() == ClosedConn()
    ensures forall i, j :: 0 <= i < j < n ==> conns[i] != conns[j] && conns[i].cells != conns[j].cells
  {
    conns := [];
    for m := 0 to n
      invariant |conns| == m
      invariant forall i :: 0 <= i < m ==> fresh(conns[i]) && fresh(conns[i].cells) && conns[i].View() == ClosedConn()
      invariant forall i, j :: 0 <= i < j < m ==> conns[i] != conns[j] && conns[i].cells != conns[j].cells
    {
      var c := new Connection();
      conns := conns + [c];
    }
  }

  /** What a drop changes besides the task list. */
  datatype PoolFields = PoolFields(status: seq<Status>, numNotResolved: int, hint: nat)

  /** One task back to the pool. */
  function ReturnOne(p: PoolFields, t: int): PoolFields {
    if 0 <= t < |p.status| then
      PoolFields(p.status[t := NotResolved], p.numNotResolved + 1, if t < p.hint then t else p.hint)
    else p
  }

  function ReturnFirst(p: PoolFields, cells: seq<int>, j: nat): (r: PoolFields)
    requires j <= |cells|
    ensures |r.status| == |p.status|
  {
    if j == 0 then p else ReturnOne(ReturnFirst(p, cells, j - 1), cells[j - 1])
  }

  /** One task back to the pool is one more cell of the drop in closed form. */
  lemma ReturnOneClosed(p: PoolFields, r: PoolFields, cells: seq<int>)
    requires cells != [] && NO_TASK <= cells[|cells| - 1] < |p.status|
    requires var less := cells[..|cells| - 1];
      && r.status == Returned(p.status, less)
      && r.numNotResolved == p.numNotResolved + |Held(less)|
      && r.hint == LowerHint(p.hint, less)
    ensures var q := ReturnOne(r, cells[|cells| - 1]);
      && q.status == Returned(p.status, cells)
      && q.numNotResolved == p.numNotResolved + |Held(cells)|
      && q.hint == LowerHint(p.hint, cells)
  {
    hide Held, Returned;
    ReturnedStep(p.status, cells);
    HeldLast(cells);
  }

  lemma NoneReturned(p: PoolFields)
    ensures Returned(p.status, []) == p.status && |Held([])| == 0 && LowerHint(p.hint, []) == p.hint
  {
    HeldSize([]);
  }

  /** Returning the cells one after the other is the drop in closed form. */
  lemma {:induction false} ReturnFirstClosed(p: PoolFields, cells: seq<int>, j: nat)
    requires j <= |cells| && forall k :: 0 <= k < |cells| ==> NO_TASK <= cells[k] < |p.status|
    ensures var r, less := ReturnFirst(p, cells, j), cells[..j];
      && r.status == Returned(p.status, less)
      && r.numNotResolved == p.numNotResolved + |Held(less)|
      && r.hint == LowerHint(p.hint, less)
  {
    hide Held, Returned, LowerHint, ReturnOne;
    if j == 0 {
      NoneReturned(p);
    } else {
      ReturnFirstClosed(p, cells, j - 1);
      assert cells[..j][..j - 1] == cells[..j - 1];
      ReturnOneClosed(p, ReturnFirst(p, cells, j - 1), cells[..j]);
    }
  }

  /** The task in hand after taking one is a real task in a real cell. */
  lemma TakenInRange<T, R>(v: Server<T, R>, i: nat)
    requires Inv(v) && i < |v.conns| && v.conns[i].open && CanIterate(v, i)
    ensures TakeTask(v, i).Got? ==>
              var w, k := TakeTask(v, i).server, TakeTask(v, i).cell;
              && Inv(w) && |w.conns| == |v.conns| && w.conns[i].open && w.conns[i].requested > 0 && w.numClients > 0
              && k < |w.conns[i].cells| && 0 <= w.conns[i].cells[k] < |w.tasks|
  {
    TakeTaskInv(v, i);
  }

  /** One more iteration of the send loop, with the frames sent before it in front. */
  lemma OneIteration<T, R>(v: Server<T, R>, i: nat, o: SendOutcome, rest: seq<SendOutcome>, answers: seq<SendOutcome>,
                           sent: seq<Frame<T>>)
    requires Inv(v) && i < |v.conns| && v.conns[i].open && v.conns[i].requested > 0
    requires if answers == [] then o == Sent && rest == [] else o == answers[0] && rest == answers[1..]
    ensures CanIterate(v, i)
    ensures SendIter(v, i, o).IterSent? ==>
              var w, f := SendIter(v, i, o).server, SendIter(v, i, o).frame;
              Served(v, i, w, 1) && Prepend(sent, SendLoop(v, i, answers)) == Prepend(sent + [f], SendLoop(w, i, rest))
    ensures SendIter(v, i, o).IterRetry? ==>
              var w := SendIter(v, i, o).server;
              Served(v, i, w, 0) && answers != [] && Prepend(sent, SendLoop(v, i, answers)) == Prepend(sent, SendLoop(w, i, rest))
    ensures SendIter(v, i, o).IterDropped? ==>
              Prepend(sent, SendLoop(v, i, answers)) == LoopDropped(SendIter(v, i, o).server, sent)
    ensures SendIter(v, i, o).IterGreedy? ==> Prepend(sent, SendLoop(v, i, answers)) == LoopGreedy(v, sent)
    ensures SendIter(v, i, o).IterNoRoom? ==>
              Prepend(sent, SendLoop(v, i, answers)) == LoopNoRoom(SendIter(v, i, o).server, sent)
  {
    hide Inv, CanIterate, SendIter;
    IterFacts(v, i, o);
    if SendIter(v, i, o).IterSent? {
      var w, f := SendIter(v, i, o).server, SendIter(v, i, o).frame;
      var r := SendLoop(w, i, rest);
      assert sent + ([f] + r.sent) == (sent + [f]) + r.sent;
    }
    assert sent + [] == sent;
  }

  lemma NoIteration<T, R>(v: Server<T, R>, i: nat, answers: seq<SendOutcome>, sent: seq<Frame<T>>)
    requires Inv(v) && i < |v.conns| && v.conns[i].open
    ensures Prepend([], SendLoop(v, i, answers)) == SendLoop(v, i, answers)
    ensures v.conns[i].requested == 0 ==> Prepend(sent, SendLoop(v, i, answers)) == LoopDone(v, sent)
  {
    hide Inv;
    assert [] + SendLoop(v, i, answers).sent == SendLoop(v, i, answers).sent && sent + [] == sent;
  }

  datatype GetOutcome = GreedyClient | ListFull | TaskIn(cell: nat)

  class Handle<T, R> {
    const tasks: seq<T>
    const rets: array<R>
    const status: array<Status>
    const conns: seq<Connection>
    var numNotResolved: int
    var numCompleted: int
    var hint: nat
    var numClients: nat
    var listening: bool

    // ---------- abstraction ----------

    ghost function Lists(): set<object> {
      set i | 0 <= i < |conns| :: conns[i].cells
    }

    ghost function ConnViews(): (r: seq<Conn>)
      reads conns, Lists()
      ensures |r| == |conns| && forall i :: 0 <= i < |conns| ==> r[i] == conns[i].View()
    {
      seq(|conns|, i requires 0 <= i < |conns| reads conns, Lists() => conns[i].View())
    }

    ghost function View(): Server<T, R>
      reads this, rets, status, conns, Lists()
    {
      Server(tasks, rets[..], status[..], numNotResolved, numCompleted, hint, ConnViews(), numClients, listening)
    }

    /** No two connections share a record or a task list, and no list is another table. */
    ghost predicate Separate() {
      && (forall i, j :: 0 <= i < j < |conns| ==> conns[i] != conns[j] && conns[i].cells != conns[j].cells)
      && (forall i :: 0 <= i < |conns| ==> conns[i].cells as object != status && conns[i].cells as object != rets)
      && status as object != rets
    }

    ghost predicate Valid()
      reads this, rets, status, conns, Lists()
    {
      Separate() && Inv(View())
    }

    // ---------- initialisation ----------

    constructor (tasks: seq<T>, rets: array<R>, maxClients: nat)
      requires rets.Length == |tasks| && maxClients > 0
      ensures Valid() && View() == Init(tasks, rets[..], maxClients)
      ensures this.rets == rets && |conns| == maxClients
      ensures fresh(status) && forall i :: 0 <= i < |conns| ==> fresh(conns[i]) && fresh(conns[i].cells)
    {
      this.tasks, this.rets := tasks, rets;
      numNotResolved, numCompleted, hint := |tasks|, 0, 0;
      numClients, listening := 0, true;
      var table := NewTable(maxClients);
      conns := table;
      status := new Status[|tasks|];
      new;
      for t := 0 to status.Length
        modifies status
        invariant forall u :: 0 <= u < t ==> status[u] == NotResolved
      {
        status[t] := NotResolved;
      }
      assert ConnViews() == seq(maxClients, _ => ClosedConn());
      assert View() == Init(tasks, rets[..], maxClients);
      InitInv(tasks, rets[..], maxClients);
    }

    // ---------- task management ----------

    /** `get_task_to_send`. */
    method GetTaskToSend(i: nat) returns (r: GetOutcome)
      requires Separate() && i < |conns| && hint <= status.Length
      modifies this, status, conns[i].cells
      ensures match GetTask(old(View()), i)
              case Greedy => r == GreedyClient && View() == old(View())
              case NoRoom(s) => r == ListFull && View() == s
              case Got(s, k) => r == TaskIn(k) && View() == s
    {
      hide Inv;
      var t := hint;
      while t < status.Length
        invariant hint <= t <= status.Length
        invariant forall u :: hint <= u < t ==> status[u] != NotResolved
        invariant View() == old(View())
      {
        if status[t] == NotResolved { break; }
        t := t + 1;
      }
      assert t == LeastFrom(old(status[..]), old(hint));
      if t == status.Length { return GreedyClient; }
      status[t] := Resolving;
      numNotResolved := numNotResolved - 1;
      hint := t + 1;
      var k := conns[i].Find(NO_TASK);
      if k == conns[i].cells.Length {
        assert ConnViews() == old(ConnViews());
        return ListFull;
      }
      conns[i].cells[k] := t;
      assert ConnViews() == old(ConnViews())[i := conns[i].View()];
      return TaskIn(k);
    }

    /** `push_return_value`. */
    method PushReturnValue(i: nat, t: nat, ret: R) returns (found: bool)
      requires Separate() && i < |conns| && t < rets.Length == status.Length
      modifies this, rets, status, conns[i].cells
      ensures match Push(old(View()), i, t, ret)
              case UnknownTask(s) => !found && View() == s
              case Pushed(s) => found && View() == s
    {
      rets[t] := ret;
      var k := conns[i].Find(t);
      if k == conns[i].cells.Length {
        assert ConnViews() == old(ConnViews());
        return false;
      }
      conns[i].cells[k] := NO_TASK;
      status[t] := Completed;
      numCompleted := numCompleted + 1;
      assert ConnViews() == old(ConnViews())[i := conns[i].View()];
      return true;
    }

    ghost function Fields(): PoolFields
      reads this, status
    {
      PoolFields(status[..], numNotResolved, hint)
    }

    /** `drop_resolving_tasks`. */
    method DropResolvingTasks(i: nat)
      requires Separate() && i < |conns|
      requires forall k :: 0 <= k < conns[i].cells.Length ==> NO_TASK <= conns[i].cells[k] < status.Length
      modifies this, status, conns[i].cells
      ensures View() == Drop(old(View()), i)
    {
      hide Held, Returned, LowerHint;
      ReturnTasks(conns[i].cells);
      assert ConnViews() == old(ConnViews())[i := conns[i].View()];
    }

    /** The loop over one task list. */
    method ReturnTasks(cells: array<int>)
      requires cells as object != status && cells as object != rets
      requires forall k :: 0 <= k < cells.Length ==> NO_TASK <= cells[k] < status.Length
      modifies this`numNotResolved, this`hint, status, cells
      ensures status[..] == Returned(old(status[..]), old(cells[..]))
      ensures cells[..] == seq(cells.Length, _ => NO_TASK)
      ensures numNotResolved == old(numNotResolved) + |Held(old(cells[..]))|
      ensures hint == LowerHint(old(hint), old(cells[..]))
    {
      hide Held, Returned, LowerHint;
      ghost var was := cells[..];
      for j := 0 to cells.Length
        invariant forall k :: 0 <= k < j ==> cells[k] == NO_TASK
        invariant forall k :: j <= k < cells.Length ==> cells[k] == was[k]
        invariant Fields() == ReturnFirst(old(Fields()), was, j)
      {
        var t := cells[j];
        cells[j] := NO_TASK;
        if t != NO_TASK {
          status[t] := NotResolved;
          numNotResolved := numNotResolved + 1;
          if t < hint {
            hint := t;
          }
        }
      }
      ReturnFirstClosed(old(Fields()), was, cells.Length);
      assert was[..cells.Length] == was;
    }

    // ---------- connection management ----------

    /** The search for a cell that is not in use. */
    method FindFree() returns (i: nat)
      ensures i == FreeConn(ConnViews())
    {
      i := 0;
      while i < |conns|
        invariant i <= |conns|
        invariant forall j :: 0 <= j < i ==> ConnViews()[j].open
      {
        if !conns[i].open { break; }
        i := i + 1;
      }
    }

    /** `accept_incoming_connection_request`, after the socket calls. */
    method AcceptConnection() returns (i: nat)
      requires Separate() && numClients <= |conns|
      modifies this, conns
      ensures match Accept(old(View()))
              case TableFull => i == |conns| && View() == old(View())
              case Accepted(s, j) => i == j && View() == s
      ensures old(Valid()) ==> Valid()
    {
      hide Inv, FreeConn;
      if Inv(View()) {
        AcceptInv(View());
      }
      i := FindFree();
      if i == |conns| { return; }
      numClients := numClients + 1;
      if numClients == |conns| {
        listening := false;
      }
      var c := conns[i];
      c.open, c.sending, c.requested, c.armed := true, NO_TASK, 0, true;
      assert ConnViews() == old(ConnViews())[i := c.View()];
    }

    /** `delete_connection`. */
    method DeleteConnection(i: nat)
      requires Separate() && i < |conns| && numClients > 0
      modifies this, conns[i]
      ensures View() == Delete(old(View()), i)
    {
      if numClients == |conns| {
        listening := true;
      }
      conns[i].open, conns[i].armed := false, false;
      numClients := numClients - 1;
      assert ConnViews() == old(ConnViews())[i := conns[i].View()];
    }

    /** Every way a connection ends: its tasks go back, then it is deleted. */
    method CloseConnection(i: nat)
      requires Valid() && i < |conns| && conns[i].open && numClients > 0
      modifies this, status, conns[i], conns[i].cells
      ensures Valid() && View() == Disconnect(old(View()), i)
    {
      DisconnectInv(View(), i);
      CellsInRange(i);
      DropResolvingTasks(i);
      DeleteConnection(i);
    }

    lemma CellsInRange(i: nat)
      requires Valid() && i < |conns|
      ensures conns[i].cells.Length == MAX_TASKS_PER_CLIENT
      ensures forall k :: 0 <= k < conns[i].cells.Length ==> NO_TASK <= conns[i].cells[k] < status.Length
    {
      assert ConnShape(ConnViews()[i], |tasks|);
    }

    // ---------- event loop ----------

    /** The hangup branch; the caller exits when no client is left. */
    method HandleHangup(i: nat) returns (noWorkers: bool)
      requires Valid() && i < |conns| && conns[i].open && numClients > 0
      modifies this, status, conns[i], conns[i].cells
      ensures Valid() && View() == Disconnect(old(View()), i)
      ensures noWorkers <==> forall j :: 0 <= j < |conns| ==> !conns[j].open
      ensures Gone(old(View()), i, View())
    {
      hide Gone;
      DisconnectEffect(View(), i);
      CloseConnection(i);
      noWorkers := numClients == 0;
      NobodyLeft(ConnViews());
      assert forall j :: 0 <= j < |conns| ==> ConnViews()[j].open == conns[j].open;
    }

    method CountRequest(i: nat)
      requires Separate() && i < |conns|
      modifies conns[i]
      ensures View() == Request(old(View()), i)
    {
      var c := conns[i];
      c.requested := c.requested + 1;
      if numNotResolved != 0 {
        c.armed := true;
      }
      assert ConnViews() == old(ConnViews())[i := c.View()];
    }

    /** The receive switch for one complete frame; true means the server goes on. */
    method HandleReceive(i: nat, f: Frame<R>) returns (goOn: bool)
      requires Valid() && i < |conns| && conns[i].open && numClients > 0
      requires f.cmd == CMD_RESULT ==> f.id < rets.Length
      modifies this, rets, status, conns[i], conns[i].cells
      ensures match Receive(old(View()), i, f)
              case Handled(s) => goOn && View() == s
              case Dropped(s) => goOn && View() == s
              case Unknown(s) => !goOn && View() == s
              case BadCommand => !goOn && View() == old(View())
      ensures goOn && old(conns[i].sending) == NO_TASK ==> Valid()
      ensures f.cmd == 0 ==> goOn && Valid() && Gone(old(View()), i, View())
      ensures f.cmd == 1 ==> goOn && View() == old(View())
      ensures f.cmd == 2 ==> goOn && OneMoreRequest(old(View()), i, View())
      ensures f.cmd == 3 ==>
                && (goOn <==> f.id as int in old(conns[i].cells[..]))
                && rets[..] == old(rets[..])[f.id := f.payload]
                && (goOn ==> status[..] == old(status[..])[f.id := Completed] && conns[i].requested == old(conns[i].requested) + 1)
      ensures f.cmd > 3 ==> !goOn && View() == old(View())
    {
      hide Inv, Gone, OneMoreRequest;
      SizesMatch();
      ReadAnswers(View(), i, f);
      if f.cmd == CMD_RESULT {
        PushEffect(View(), i, f.id, f.payload);
      }
      if conns[i].sending == NO_TASK {
        ReceiveInv(View(), i, f);
      }
      if f.cmd == CMD_REQUEST_FOR_DATA {
        CountRequest(i);
        return true;
      } else if f.cmd == CMD_RESULT {
        goOn := PushReturnValue(i, f.id, f.payload);
        if goOn {
          CountRequest(i);
        }
      } else if f.cmd == ERR_CONN_BROKEN {
        CloseConnection(i);
        return true;
      } else {
        return f.cmd == ERR_NOT_READY;
      }
    }

    lemma SizesMatch()
      requires Valid()
      ensures rets.Length == status.Length == |tasks| && hint <= status.Length
    {
    }

    /** The task to send next: the one in hand, or a new one that is then in hand. */
    method TakeTaskFor(i: nat) returns (r: GetOutcome)
      requires Separate() && i < |conns| && CanIterate(View(), i)
      modifies this, status, conns[i], conns[i].cells
      ensures match TakeTask(old(View()), i)
              case Greedy => r == GreedyClient && View() == old(View())
              case NoRoom(s) => r == ListFull && View() == s
              case Got(s, k) => r == TaskIn(k) && View() == s
    {
      if conns[i].sending != NO_TASK {
        return TaskIn(conns[i].sending);
      }
      r := GetTaskToSend(i);
      if r.TaskIn? {
        ghost var taken := ConnViews();
        conns[i].sending := r.cell;
        assert ConnViews() == taken[i := conns[i].View()];
      }
    }

    /** One request served; write interest withdrawn. */
    method MarkSent(i: nat)
      requires Separate() && i < |conns| && conns[i].requested > 0
      modifies conns[i]
      ensures View() == old(View()).(conns := old(View()).conns[i := AfterSend(old(View()).conns[i])])
    {
      var c := conns[i];
      c.sending, c.requested, c.armed := NO_TASK, c.requested - 1, false;
      assert ConnViews() == old(ConnViews())[i := c.View()];
    }

    /** One iteration of the send loop: what was sent, or why the loop ends. */
    method SendOnce(i: nat, answer: SendOutcome) returns (r: IterOutcome<T>)
      requires Valid() && i < |conns| && conns[i].open && conns[i].requested > 0
      requires CanIterate(View(), i)
      modifies this, status, conns[i], conns[i].cells
      ensures match SendIter(old(View()), i, answer)
              case IterGreedy => r == Exit && View() == old(View())
              case IterNoRoom(s) => r == Exit && View() == s
              case IterSent(s, f) => r == Delivered(f) && View() == s
              case IterRetry(s) => r == Again && View() == s
              case IterDropped(s) => r == Left && View() == s
      ensures r == Left ==> Valid()
    {
      hide Inv, TakeTask, Disconnect, Separate;
      TakenInRange(View(), i);
      var got := TakeTaskFor(i);
      if !got.TaskIn? { return Exit; }
      match answer
      case Sent =>
        var t := conns[i].cells[got.cell];
        MarkSent(i);
        return Delivered(Frame(CMD_TASK, t, tasks[t]));
      case NotReady =>
        return Again;
      case Broken =>
        CloseConnection(i);
        return Left;
    }

    /** A write event: the send loop over one connection, for the given answers of the socket. */
    method HandleWritable(i: nat, answers: seq<SendOutcome>) returns (sent: seq<Frame<T>>, end: LoopEnd)
      requires Valid() && i < |conns| && conns[i].open
      modifies this, status, conns[i], conns[i].cells
      ensures match SendLoop(old(View()), i, answers)
              case LoopDone(s, fs) => end == AllServed && sent == fs && View() == s
              case LoopGreedy(s, fs) => end == ServerExit && sent == fs && View() == s
              case LoopNoRoom(s, fs) => end == ServerExit && sent == fs && View() == s
              case LoopDropped(s, fs) => end == ConnectionLost && sent == fs && View() == s
      ensures end != ServerExit ==> Valid()
    {
      hide Inv, CanIterate, SendIter, Separate, SendLoop, Prepend;
      sent := [];
      var next := 0;
      ghost var all := SendLoop(View(), i, answers);
      NoIteration(View(), i, answers, []);
      assert answers[0..] == answers;
      while conns[i].requested != 0
        invariant next <= |answers|
        invariant Valid() && conns[i].open
        invariant all == Prepend(sent, SendLoop(View(), i, answers[next..]))
        decreases |answers| - next, conns[i].requested
      {
        var answer, later := Sent, next;
        if next < |answers| {
          answer, later := answers[next], next + 1;
        }
        OneIteration(View(), i, answer, answers[later..], answers[next..], sent);
        var r := SendOnce(i, answer);
        next := later;
        match r {
          case Delivered(f) => sent := sent + [f];
          case Again =>
          case Left => return sent, ConnectionLost;
          case Exit => return sent, ServerExit;
        }
      }
      NoIteration(View(), i, answers[next..], sent);
      end := AllServed;
    }
  }

  datatype LoopEnd = AllServed | ConnectionLost | ServerExit

  datatype IterOutcome<T> = Delivered(frame: Frame<T>) | Again | Left | Exit
}
