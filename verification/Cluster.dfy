/**
 * The whole cluster as a transition system: one server, one client per open connection,
 * and two first-in-first-out frame streams per connection. A connection may die at any
 * moment, on either side.
 */
module Cluster {
  import opened Config
  import opened ServerModel
  import opened ClientModel

  /** What hangs on one cell of the connection table. `up` is on its way to the server,
      `down` to the client; a client that is not alive takes no more steps. */
  datatype Session<T, R> =
    | Closed
    | Open(client: Client<T, R>, alive: bool, up: seq<Frame<R>>, down: seq<Frame<T>>)

  datatype Abort = GreedyClient | NoRoomForTask | NoFreeConnection | ResultForUnknownTask | UnknownCommand

  datatype Phase = Running | Finished | NoWorkersLeft | Aborted(why: Abort)

  /** `loop` is the connection whose send loop the server is in, or -1 between handlers.
      `handedOut`, `returned` and `disconnects` record the history of the run. */
  datatype Cluster<T, R> = Cluster(
    server: Server<T, R>,
    sessions: seq<Session<T, R>>,
    phase: Phase,
    loop: int,
    handedOut: nat,
    returned: nat,
    disconnects: nat)

  const IDLE: int := -1

  datatype Action<T, R> =
    | Connect(newcomer: Client<T, R>)       // a connected client is accepted
    | ServerReceive(conn: nat)              // the server reads one complete frame
    | Disconnection(conn: nat, hangup: bool) // the server notices a dead connection
    | Writable(conn: nat)                   // a write event enters the send loop
    | SendTask(answer: SendOutcome)         // one iteration of the send loop
    | ClientReceive(conn: nat)              // the client reads one complete task frame
    | ClientCompute(conn: nat, slot: nat)   // a computation thread finishes
    | ClientReady(conn: nat, slot: nat)     // the client notices that it finished
    | ClientSend(conn: nat, junk: R)        // one send of the client's write handler
    | ClientDies(conn: nat)                 // the client process or the network goes away
    | Finish                                // the server leaves its event loop

  // ---------- initial state ----------

  function InitCluster<T, R>(tasks: seq<T>, rets: seq<R>, maxClients: nat): Cluster<T, R> {
    Cluster(Init(tasks, rets, maxClients), seq(maxClients, _ => Closed), Running, IDLE, 0, 0, 0)
  }

  // ---------- guards ----------

  predicate ClientRuns<T, R>(s: Cluster<T, R>, i: nat) {
    i < |s.sessions| && s.sessions[i].Open? && s.sessions[i].alive
  }

  predicate ServerIdle<T, R>(s: Cluster<T, R>, i: nat) {
    s.loop == IDLE && i < |s.sessions| && s.sessions[i].Open?
  }

  /** When the action can happen at all. */
  predicate Guard<T, R>(s: Cluster<T, R>, a: Action<T, R>) {
    && s.phase == Running
    && match a
       case Connect(c) => s.loop == IDLE && Fresh(c)
       case ServerReceive(i) => ServerIdle(s, i) && s.sessions[i].up != []
       case Disconnection(i, _) => ServerIdle(s, i)
       case Writable(i) => ServerIdle(s, i) && i < |s.server.conns| && s.server.conns[i].armed && s.server.conns[i].requested > 0
       case SendTask(_) => s.loop >= 0
       case ClientReceive(i) => ClientRuns(s, i) && s.sessions[i].down != []
       case ClientCompute(i, k) => ClientRuns(s, i) && k < |s.sessions[i].client.slots| && Computing(s.sessions[i].client.slots[k])
       case ClientReady(i, k) => ClientRuns(s, i) && k < |s.sessions[i].client.slots| && s.sessions[i].client.slots[k].signalled
       case ClientSend(i, _) => ClientRuns(s, i) && s.sessions[i].client.armed && HasPending(s.sessions[i].client)
       case ClientDies(i) => ClientRuns(s, i)
       case Finish => s.loop == IDLE && s.server.numCompleted == |s.server.tasks|
  }

  /** The array accesses and counters the action relies on are within bounds. */
  predicate InBounds<T, R>(s: Cluster<T, R>, a: Action<T, R>) {
    && |s.sessions| == |s.server.conns|
    && |s.server.rets| == |s.server.status| == |s.server.tasks|
    && match a
       case ServerReceive(i) =>
         && s.server.numClients > 0 && i < |s.sessions| && s.sessions[i].Open? && s.sessions[i].up != []
         && (s.sessions[i].up[0].cmd == CMD_RESULT ==> s.sessions[i].up[0].id < |s.server.tasks|)
       case Disconnection(i, _) => s.server.numClients > 0
       case SendTask(_) => s.loop >= 0 && CanIterate(s.server, s.loop)
       case _ => true
  }

  predicate Enabled<T, R>(s: Cluster<T, R>, a: Action<T, R>) {
    Guard(s, a) && InBounds(s, a)
  }

  // ---------- effects ----------

  function DropSession<T, R>(s: Cluster<T, R>, i: nat, server: Server<T, R>, lost: nat): Cluster<T, R>
    requires i < |s.sessions|
  {
    s.(server := server, sessions := s.sessions[i := Closed], loop := IDLE,
       returned := s.returned + lost, disconnects := s.disconnects + 1)
  }

  function ApplyConnect<T, R>(s: Cluster<T, R>, c: Client<T, R>): Cluster<T, R>
    requires |s.sessions| == |s.server.conns|
  {
    match Accept(s.server)
    case TableFull => s.(phase := Aborted(NoFreeConnection))
    case Accepted(server, i) => s.(server := server, sessions := s.sessions[i := Open(c, true, [], [])])
  }

  function ApplyReceive<T, R>(s: Cluster<T, R>, i: nat): Cluster<T, R>
    requires Enabled(s, ServerReceive(i))
  {
    var x := s.sessions[i];
    match Receive(s.server, i, x.up[0])
    case Handled(server) => s.(server := server, sessions := s.sessions[i := x.(up := x.up[1..])])
    case Dropped(server) => DropSession(s, i, server, |Held(s.server.conns[i].cells)|)
    case Unknown(_) => s.(phase := Aborted(ResultForUnknownTask))
    case BadCommand => s.(phase := Aborted(UnknownCommand))
  }

  function ApplyDisconnection<T, R>(s: Cluster<T, R>, i: nat, hangup: bool): Cluster<T, R>
    requires Enabled(s, Disconnection(i, hangup))
  {
    var server := Disconnect(s.server, i);
    var s1 := DropSession(s, i, server, |Held(s.server.conns[i].cells)|);
    if hangup && server.numClients == 0 then s1.(phase := NoWorkersLeft) else s1
  }

  /** Tasks handed out by one iteration: one if the connection had none in hand. */
  function NewlyTaken<T, R>(s: Server<T, R>, i: nat): nat
    requires i < |s.conns|
  {
    if s.conns[i].sending == NO_TASK then 1 else 0
  }

  function ApplySendTask<T, R>(s: Cluster<T, R>, answer: SendOutcome): Cluster<T, R>
    requires Enabled(s, SendTask(answer))
  {
    var i: nat := s.loop;
    var taken := s.handedOut + NewlyTaken(s.server, i);
    match SendIter(s.server, i, answer)
    case IterGreedy => s.(phase := Aborted(GreedyClient))
    case IterNoRoom(_) => s.(phase := Aborted(NoRoomForTask))
    case IterRetry(server) => s.(server := server, handedOut := taken)
    case IterSent(server, f) =>
      var x := s.sessions[i];
      var down := if x.Open? then x.(down := x.down + [f]) else x;
      s.(server := server, handedOut := taken, sessions := s.sessions[i := down],
         loop := if server.conns[i].requested == 0 then IDLE else i)
    case IterDropped(server) =>
      var lost := |Held(s.server.conns[i].cells)| + NewlyTaken(s.server, i);
      DropSession(s, i, server, lost).(handedOut := taken)
  }

  function WithClient<T, R>(s: Cluster<T, R>, i: nat, c: Client<T, R>): Cluster<T, R>
    requires i < |s.sessions| && s.sessions[i].Open?
  {
    s.(sessions := s.sessions[i := s.sessions[i].(client := c)])
  }

  function ApplyClientReceive<T, R>(s: Cluster<T, R>, i: nat): Cluster<T, R>
    requires Enabled(s, ClientReceive(i))
  {
    var x := s.sessions[i];
    match StartComputation(x.client, x.down[0].id, x.down[0].payload)
    case None => s.(sessions := s.sessions[i := x.(alive := false)])
    case Some(c) => s.(sessions := s.sessions[i := x.(client := c, down := x.down[1..])])
  }

  function ApplyClientSend<T, R>(s: Cluster<T, R>, i: nat, junk: R): Cluster<T, R>
    requires Enabled(s, ClientSend(i, junk))
  {
    var x := s.sessions[i];
    s.(sessions := s.sessions[i := x.(client := Settle(AfterNext(x.client)), up := x.up + [NextFrame(x.client, junk)])])
  }

  function Apply<T, R>(f: T -> R, s: Cluster<T, R>, a: Action<T, R>): Cluster<T, R>
    requires Enabled(s, a)
  {
    match a
    case Connect(c) => ApplyConnect(s, c)
    case ServerReceive(i) => ApplyReceive(s, i)
    case Disconnection(i, hangup) => ApplyDisconnection(s, i, hangup)
    case Writable(i) => s.(loop := i)
    case SendTask(answer) => ApplySendTask(s, answer)
    case ClientReceive(i) => ApplyClientReceive(s, i)
    case ClientCompute(i, k) => WithClient(s, i, Compute(s.sessions[i].client, k, f))
    case ClientReady(i, k) => WithClient(s, i, MarkReady(s.sessions[i].client, k))
    case ClientSend(i, junk) => ApplyClientSend(s, i, junk)
    case ClientDies(i) => s.(sessions := s.sessions[i := s.sessions[i].(alive := false)])
    case Finish => s.(phase := Finished)
  }

  // ---------- runs ----------

  /** Every action of the list is enabled when its turn comes. */
  predicate IsRun<T, R>(f: T -> R, s: Cluster<T, R>, acts: seq<Action<T, R>>)
    decreases |acts|
  {
    acts != [] ==> Enabled(s, acts[0]) && IsRun(f, Apply(f, s, acts[0]), acts[1..])
  }

  function After<T, R>(f: T -> R, s: Cluster<T, R>, acts: seq<Action<T, R>>): Cluster<T, R>
    requires IsRun(f, s, acts)
    decreases |acts|
  {
    if acts == [] then s else After(f, Apply(f, s, acts[0]), acts[1..])
  }
}
