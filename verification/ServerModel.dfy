/**
 * The server's tables as one value, and every table operation as a function on it.
 * The imperative handle in ServerHandle.dfy is proved against these functions, and the
 * cluster transition system is built from them.
 */
module ServerModel {
  import opened Config

  datatype Status = NotResolved | Resolving | Completed

  /** One cell of the connection table. `open` is `socket_fd != -1`; `armed` is the
      write interest registered for the socket. */
  datatype Conn = Conn(open: bool, requested: nat, sending: int, cells: seq<int>, armed: bool)

  datatype Server<T, R> = Server(
    tasks: seq<T>,
    rets: seq<R>,
    status: seq<Status>,
    numNotResolved: int,
    numCompleted: int,
    hint: nat,
    conns: seq<Conn>,
    numClients: nat,
    listening: bool)

  // ---------- searches ----------

  /** The least index at or above `h` whose status is NotResolved, or the length. */
  function LeastFrom(status: seq<Status>, h: nat): (r: nat)
    requires h <= |status|
    ensures h <= r <= |status|
    ensures r < |status| ==> status[r] == NotResolved
    ensures forall t :: h <= t < r ==> status[t] != NotResolved
    decreases |status| - h
  {
    if h == |status| || status[h] == NotResolved then h else LeastFrom(status, h + 1)
  }

  /** The first position of `v`, or the length. */
  function IndexOf(cells: seq<int>, v: int): (r: nat)
    ensures r <= |cells|
    ensures r < |cells| ==> cells[r] == v
    ensures forall k :: 0 <= k < r ==> cells[k] != v
  {
    if cells == [] || cells[0] == v then 0 else 1 + IndexOf(cells[1..], v)
  }

  /** The first cell of the connection table that is not in use, or the length. */
  function FreeConn(conns: seq<Conn>): (r: nat)
    ensures r <= |conns|
    ensures r < |conns| ==> !conns[r].open
    ensures forall i :: 0 <= i < r ==> conns[i].open
  {
    if conns == [] || !conns[0].open then 0 else 1 + FreeConn(conns[1..])
  }

  // ---------- abstractions of the tables ----------

  /** The tasks a task list holds. */
  function Held(cells: seq<int>): multiset<int> {
    multiset(cells)[NO_TASK := 0]
  }

  /** The tasks all task lists together hold. */
  function AllHeld(conns: seq<Conn>): multiset<int> {
    if conns == [] then multiset{} else Held(conns[0].cells) + AllHeld(conns[1..])
  }

  function OpenCount(conns: seq<Conn>): nat {
    if conns == [] then 0 else (if conns[0].open then 1 else 0) + OpenCount(conns[1..])
  }

  /** The task the send loop has taken for this connection and not sent yet. */
  function SendingTask(c: Conn): multiset<int>
    requires c.sending == NO_TASK || 0 <= c.sending < |c.cells|
  {
    if c.sending == NO_TASK then multiset{} else multiset{c.cells[c.sending]}
  }

  // ---------- initial state ----------

  function EmptyCells(): seq<int> {
    seq(MAX_TASKS_PER_CLIENT, _ => NO_TASK)
  }

  function ClosedConn(): Conn {
    Conn(false, 0, NO_TASK, EmptyCells(), false)
  }

  /** `init_task_management_routine` and `init_connection_management_routine`. */
  function Init<T, R>(tasks: seq<T>, rets: seq<R>, maxClients: nat): Server<T, R> {
    Server(tasks, rets, seq(|tasks|, _ => NotResolved), |tasks|, 0, 0,
           seq(maxClients, _ => ClosedConn()), 0, true)
  }

  // ---------- operations ----------

  datatype GetResult<T, R> =
    | Greedy                                  // "Greedy client detected"
    | NoRoom(server: Server<T, R>)            // "Asking for a task while there is no room for it"
    | Got(server: Server<T, R>, cell: nat)

  /** `get_task_to_send`: the hinted scan, then the search for a free cell. */
  function GetTask<T, R>(s: Server<T, R>, i: nat): GetResult<T, R>
    requires i < |s.conns| && s.hint <= |s.status|
  {
    var t := LeastFrom(s.status, s.hint);
    if t == |s.status| then Greedy
    else
      var s1 := s.(status := s.status[t := Resolving], numNotResolved := s.numNotResolved - 1, hint := t + 1);
      var c := s.conns[i];
      var k := IndexOf(c.cells, NO_TASK);
      if k == |c.cells| then NoRoom(s1)
      else Got(s1.(conns := s.conns[i := c.(cells := c.cells[k := t])]), k)
  }

  datatype PushResult<T, R> =
    | UnknownTask(server: Server<T, R>)       // "Can't find number of task in the task list"
    | Pushed(server: Server<T, R>)

  /** `push_return_value`: the result is copied first, the cell is looked for afterwards. */
  function Push<T, R>(s: Server<T, R>, i: nat, t: nat, ret: R): PushResult<T, R>
    requires i < |s.conns| && t < |s.rets| == |s.status|
  {
    var s1 := s.(rets := s.rets[t := ret]);
    var c := s.conns[i];
    var k := IndexOf(c.cells, t);
    if k == |c.cells| then UnknownTask(s1)
    else Pushed(s1.(status := s.status[t := Completed], numCompleted := s.numCompleted + 1,
                    conns := s.conns[i := c.(cells := c.cells[k := NO_TASK])]))
  }

  /** Every task of `cells` back to NotResolved, the others as they were. */
  function Returned(status: seq<Status>, cells: seq<int>): (r: seq<Status>)
    ensures |r| == |status|
  {
    seq(|status|, t requires 0 <= t < |status| => if t in cells then NotResolved else status[t])
  }

  /** The least of `h` and the tasks in `cells`. */
  function LowerHint(h: nat, cells: seq<int>): (r: nat)
    ensures r <= h
    ensures forall k :: 0 <= k < |cells| && cells[k] >= 0 ==> r <= cells[k]
    ensures r == h || r as int in cells
  {
    if cells == [] then h
    else
      var n := |cells| - 1;
      var m := LowerHint(h, cells[..n]);
      if 0 <= cells[n] < m then cells[n] else m
  }

  /** `drop_resolving_tasks` in closed form. */
  function Drop<T, R>(s: Server<T, R>, i: nat): Server<T, R>
    requires i < |s.conns|
  {
    var c := s.conns[i];
    s.(status := Returned(s.status, c.cells),
       numNotResolved := s.numNotResolved + |Held(c.cells)|,
       hint := LowerHint(s.hint, c.cells),
       conns := s.conns[i := c.(cells := seq(|c.cells|, _ => NO_TASK))])
  }

  datatype AcceptResult<T, R> =
    | TableFull                               // "No free cell in the connection array"
    | Accepted(server: Server<T, R>, conn: nat)

  /** `accept_incoming_connection_request` after the socket calls. */
  function Accept<T, R>(s: Server<T, R>): AcceptResult<T, R> {
    var i := FreeConn(s.conns);
    if i == |s.conns| then TableFull
    else
      var c := s.conns[i].(open := true, requested := 0, sending := NO_TASK, armed := true);
      Accepted(s.(conns := s.conns[i := c], numClients := s.numClients + 1,
                  listening := s.listening && s.numClients + 1 != |s.conns|), i)
  }

  /** `delete_connection`. Everything but the descriptor keeps its stale value. */
  function Delete<T, R>(s: Server<T, R>, i: nat): Server<T, R>
    requires i < |s.conns| && s.numClients > 0
  {
    s.(conns := s.conns[i := s.conns[i].(open := false, armed := false)],
       numClients := s.numClients - 1,
       listening := s.listening || s.numClients == |s.conns|)
  }

  /** The way every connection death is handled: drop its tasks, then delete it. */
  function Disconnect<T, R>(s: Server<T, R>, i: nat): Server<T, R>
    requires i < |s.conns| && s.numClients > 0
  {
    Delete(Drop(s, i), i)
  }

  /** Count one more request and ask for write events while there is work to hand out. */
  function Request<T, R>(s: Server<T, R>, i: nat): Server<T, R>
    requires i < |s.conns|
  {
    var c := s.conns[i];
    s.(conns := s.conns[i := c.(requested := c.requested + 1, armed := c.armed || s.numNotResolved != 0)])
  }

  datatype RecvResult<T, R> =
    | Handled(server: Server<T, R>)
    | Dropped(server: Server<T, R>)
    | Unknown(server: Server<T, R>)           // a result for a task the connection does not hold
    | BadCommand                              // "Unknow command recieved"

  /** The receive switch of the event loop for one complete frame. */
  function Receive<T, R>(s: Server<T, R>, i: nat, f: Frame<R>): RecvResult<T, R>
    requires i < |s.conns| && s.numClients > 0 && |s.rets| == |s.status|
    requires f.cmd == CMD_RESULT ==> f.id < |s.rets|
  {
    if f.cmd == CMD_REQUEST_FOR_DATA then Handled(Request(s, i))
    else if f.cmd == CMD_RESULT then
      match Push(s, i, f.id, f.payload)
      case Pushed(s1) => Handled(Request(s1, i))
      case UnknownTask(s1) => Unknown(s1)
    else if f.cmd == ERR_CONN_BROKEN then Dropped(Disconnect(s, i))
    else if f.cmd == ERR_NOT_READY then Handled(s)
    else BadCommand
  }

  datatype IterResult<T, R> =
    | IterGreedy
    | IterNoRoom(server: Server<T, R>)
    | IterSent(server: Server<T, R>, frame: Frame<T>)
    | IterRetry(server: Server<T, R>)
    | IterDropped(server: Server<T, R>)

  /** The send loop's guard, and what its array accesses need. */
  predicate CanIterate<T, R>(s: Server<T, R>, i: nat) {
    && i < |s.conns| && s.hint <= |s.status| == |s.tasks| && s.numClients > 0
    && s.conns[i].requested > 0
    && (s.conns[i].sending == NO_TASK
        || (0 <= s.conns[i].sending < |s.conns[i].cells| && 0 <= s.conns[i].cells[s.conns[i].sending] < |s.tasks|))
  }

  /** The task taken earlier and not sent yet, or else a new one. */
  function TakeTask<T, R>(s: Server<T, R>, i: nat): GetResult<T, R>
    requires CanIterate(s, i)
  {
    if s.conns[i].sending != NO_TASK then Got(s, s.conns[i].sending)
    else
      match GetTask(s, i)
      case Got(s1, k) => Got(s1.(conns := s1.conns[i := s1.conns[i].(sending := k)]), k)
      case other => other
  }

  /** After a successful send: one request served, write interest withdrawn. */
  function AfterSend(c: Conn): Conn
    requires c.requested > 0
  {
    c.(sending := NO_TASK, requested := c.requested - 1, armed := false)
  }

  /** One iteration of the send loop, for one answer of `send`. */
  function SendIter<T, R>(s: Server<T, R>, i: nat, o: SendOutcome): IterResult<T, R>
    requires CanIterate(s, i)
  {
    match TakeTask(s, i)
    case Greedy => IterGreedy
    case NoRoom(s1) => IterNoRoom(s1)
    case Got(s1, k) =>
      var c := s1.conns[i];
      var t := c.cells[k];
      match o
      case Sent => IterSent(s1.(conns := s1.conns[i := AfterSend(c)]), Frame(CMD_TASK, t, s1.tasks[t]))
      case NotReady => IterRetry(s1)
      case Broken => IterDropped(Disconnect(s1, i))
  }
}
