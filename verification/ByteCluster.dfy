/**
 * The cluster with byte streams in place of frame queues: what is sent is appended to a wire,
 * and a read takes any piece of it into the receive buffer. The handlers are those of the
 * frame cluster; this module shows that all such a cluster can do is what the frame cluster does.
 */
module ByteCluster {
  import opened Config
  import opened ServerModel
  import opened ServerInvariant
  import opened Dispatch
  import opened ClientModel
  import opened Cluster
  import opened SessionInvariant
  import opened ClusterInvariant
  import opened Theorems
  import opened Progress
  import Framing

  type Bytes = Framing.Bytes

  /** One direction of a connection: the receive buffer, and the bytes on their way to it. */
  datatype Link = Link(residue: Bytes, wire: Bytes)

  datatype ByteSession =
    | Gone
    | Linked(client: Client<Bytes, Bytes>, alive: bool, up: Link, down: Link)

  /** The frame cluster's state with links for queues. */
  datatype ByteState = ByteState(
    server: Server<Bytes, Bytes>,
    sessions: seq<ByteSession>,
    phase: Phase,
    loop: int,
    handedOut: nat,
    returned: nat,
    disconnects: nat)

  /** The fixed payload sizes of the two directions. */
  datatype Sizes = Sizes(task: nat, result: nat)

  datatype ByteAction =
    | ReadUp(conn: nat, n: nat)              // the server receives n bytes
    | ReadDown(conn: nat, n: nat)            // the client receives n bytes
    | Local(a: Action<Bytes, Bytes>)         // anything that receives nothing

  // ---------- what goes onto the wire ----------

  /** A frame as it is written out: one byte of command, four of task id, the payload. */
  function Raw(u: Frame<Bytes>): Bytes {
    [u.cmd % 0x100] + Framing.ToBigEndian(u.id % 0x1_0000_0000) + u.payload
  }

  function RawAll(fs: seq<Frame<Bytes>>): Bytes {
    if fs == [] then [] else Raw(fs[0]) + RawAll(fs[1..])
  }

  function Extended(l: Link, fs: seq<Frame<Bytes>>): Link {
    l.(wire := l.wire + RawAll(fs))
  }

  // ---------- handlers on links ----------

  /** A session as a handler sees it that has nothing to read. */
  function Bare(x: ByteSession): Session<Bytes, Bytes> {
    match x
    case Gone => Closed
    case Linked(c, alive, _, _) => Open(c, alive, [], [])
  }

  function Bares(xs: seq<ByteSession>): (r: seq<Session<Bytes, Bytes>>)
    ensures |r| == |xs| && forall i :: 0 <= i < |xs| ==> r[i] == Bare(xs[i])
  {
    seq(|xs|, i requires 0 <= i < |xs| => Bare(xs[i]))
  }

  function Core(b: ByteState): Cluster<Bytes, Bytes> {
    Cluster(b.server, Bares(b.sessions), b.phase, b.loop, b.handedOut, b.returned, b.disconnects)
  }

  /** The core with one received frame to handle. */
  function WithUp(s: Cluster<Bytes, Bytes>, i: nat, u: Frame<Bytes>): Cluster<Bytes, Bytes>
    requires i < |s.sessions| && s.sessions[i].Open?
  {
    s.(sessions := s.sessions[i := s.sessions[i].(up := [u])])
  }

  function WithDown(s: Cluster<Bytes, Bytes>, i: nat, u: Frame<Bytes>): Cluster<Bytes, Bytes>
    requires i < |s.sessions| && s.sessions[i].Open?
  {
    s.(sessions := s.sessions[i := s.sessions[i].(down := [u])])
  }

  /** One session after a handler: frames it sent are appended to the links. */
  function Relink(x: ByteSession, y: Session<Bytes, Bytes>): ByteSession {
    match y
    case Closed => Gone
    case Open(c, alive, up, down) =>
      if x.Gone? then Linked(c, alive, Extended(Link([], []), up), Extended(Link([], []), down))
      else Linked(c, alive, Extended(x.up, up), Extended(x.down, down))
  }

  function Reattach(b: ByteState, t: Cluster<Bytes, Bytes>): ByteState
    requires |t.sessions| == |b.sessions|
  {
    ByteState(t.server, seq(|b.sessions|, i requires 0 <= i < |b.sessions| => Relink(b.sessions[i], t.sessions[i])),
              t.phase, t.loop, t.handedOut, t.returned, t.disconnects)
  }

  /** The buffer and wire after a read. */
  function Taken(l: Link, n: nat, size: nat): Framing.Feed
    requires n <= |l.wire| && |l.residue| + n <= Framing.HEADER_SIZE + size
  {
    Framing.Accept(l.residue, l.wire[..n], size)
  }

  /** What recv guarantees: at least one byte, no more than are there or fit. */
  predicate CanRead(l: Link, n: nat, size: nat) {
    0 < n <= |l.wire| && |l.residue| + n <= Framing.HEADER_SIZE + size
  }

  function AfterUp(b: ByteState, i: nat, n: nat, sz: Sizes): ByteState
    requires i < |b.sessions| && b.sessions[i].Linked? && CanRead(b.sessions[i].up, n, sz.result)
  {
    var l := b.sessions[i].up;
    b.(sessions := b.sessions[i := b.sessions[i].(up := Link(Taken(l, n, sz.result).residue, l.wire[n..]))])
  }

  function AfterDown(b: ByteState, i: nat, n: nat, sz: Sizes): ByteState
    requires i < |b.sessions| && b.sessions[i].Linked? && CanRead(b.sessions[i].down, n, sz.task)
  {
    var l := b.sessions[i].down;
    b.(sessions := b.sessions[i := b.sessions[i].(down := Link(Taken(l, n, sz.task).residue, l.wire[n..]))])
  }

  /** When a byte action can happen. */
  predicate ByteGuard(b: ByteState, a: ByteAction, sz: Sizes) {
    match a
    case ReadUp(i, n) =>
      && b.phase == Running && b.loop == IDLE
      && i < |b.sessions| && b.sessions[i].Linked? && CanRead(b.sessions[i].up, n, sz.result)
    case ReadDown(i, n) =>
      && b.phase == Running
      && i < |b.sessions| && b.sessions[i].Linked? && b.sessions[i].alive && CanRead(b.sessions[i].down, n, sz.task)
    case Local(c) =>
      && !c.ServerReceive? && !c.ClientReceive? && Guard(Core(b), c)
      && (c.ClientSend? ==> |c.junk| == sz.result)
  }

  /** What its handler relies on, if a frame is complete. */
  predicate ByteEnabled(b: ByteState, a: ByteAction, sz: Sizes) {
    && ByteGuard(b, a, sz)
    && match a
       case ReadUp(i, n) =>
         var r := Taken(b.sessions[i].up, n, sz.result);
         r.frames != [] ==> Enabled(WithUp(Core(AfterUp(b, i, n, sz)), i, r.frames[0]), ServerReceive(i))
       case ReadDown(i, n) =>
         var r := Taken(b.sessions[i].down, n, sz.task);
         r.frames != [] ==> Enabled(WithDown(Core(AfterDown(b, i, n, sz)), i, r.frames[0]), ClientReceive(i))
       case Local(c) => Enabled(Core(b), c)
  }

  /** No handler adds or removes cells of the connection table. */
  lemma SameTable(f: Bytes -> Bytes, s: Cluster<Bytes, Bytes>, a: Action<Bytes, Bytes>)
    requires Enabled(s, a)
    ensures |Apply(f, s, a).sessions| == |s.sessions|
  {
    hide Receive, SendIter, StartComputation, Settle, AfterNext, NextFrame, Disconnect, Held;
  }

  function ByteApply(f: Bytes -> Bytes, b: ByteState, a: ByteAction, sz: Sizes): ByteState
    requires ByteEnabled(b, a, sz)
  {
    match a
    case ReadUp(i, n) =>
      var r, b1 := Taken(b.sessions[i].up, n, sz.result), AfterUp(b, i, n, sz);
      if r.frames == [] then b1
      else
        SameTable(f, WithUp(Core(b1), i, r.frames[0]), ServerReceive(i));
        Reattach(b1, Apply(f, WithUp(Core(b1), i, r.frames[0]), ServerReceive(i)))
    case ReadDown(i, n) =>
      var r, b1 := Taken(b.sessions[i].down, n, sz.task), AfterDown(b, i, n, sz);
      if r.frames == [] then b1
      else
        SameTable(f, WithDown(Core(b1), i, r.frames[0]), ClientReceive(i));
        Reattach(b1, Apply(f, WithDown(Core(b1), i, r.frames[0]), ClientReceive(i)))
    case Local(c) =>
      SameTable(f, Core(b), c);
      Reattach(b, Apply(f, Core(b), c))
  }

  // ---------- links that stand for queues ----------

  lemma {:induction false} ExtendedCarries(l: Link, fs: seq<Frame<Bytes>>, gs: seq<Frame<Bytes>>, size: nat)
    requires Framing.Carries(l.residue, l.wire, fs, size)
    requires forall k :: 0 <= k < |gs| ==> Framing.WellFormed(gs[k], size)
    ensures Framing.Carries(Extended(l, gs).residue, Extended(l, gs).wire, fs + gs, size)
    decreases |gs|
  {
    hide Framing.Carries, Framing.WellFormed, Framing.Encode, Raw;
    if gs == [] {
      assert fs + gs == fs && l.wire + [] == l.wire;
    } else {
      RawIsEncode(gs[0], size);
      Framing.SendIsFifo(l.residue, l.wire, fs, size, gs[0]);
      ExtendedCarries(Link(l.residue, l.wire + Raw(gs[0])), fs + [gs[0]], gs[1..], size);
      Regroup(fs, [gs[0]], gs[1..]);
      Regroup(l.wire, Raw(gs[0]), RawAll(gs[1..]));
      assert [gs[0]] + gs[1..] == gs;
    }
  }

  lemma RawIsEncode(u: Frame<Bytes>, size: nat)
    requires Framing.WellFormed(u, size)
    ensures Raw(u) == Framing.Encode(u, size)
  {
    hide Framing.ToBigEndian;
    assert u.cmd % 0x100 == u.cmd && u.id % 0x1_0000_0000 == u.id;
  }

  lemma Regroup<A>(a: seq<A>, b: seq<A>, c: seq<A>)
    ensures (a + b) + c == a + (b + c)
  {
  }

  ghost predicate SameSession(x: ByteSession, y: Session<Bytes, Bytes>, sz: Sizes) {
    match x
    case Gone => y.Closed?
    case Linked(c, alive, up, down) =>
      && y.Open? && y.client == c && y.alive == alive
      && Framing.Carries(up.residue, up.wire, y.up, sz.result)
      && Framing.Carries(down.residue, down.wire, y.down, sz.task)
  }

  /** The same state, each link standing for the queue of frames it carries. */
  ghost predicate Same(b: ByteState, s: Cluster<Bytes, Bytes>, sz: Sizes) {
    && s.server == b.server && s.phase == b.phase && s.loop == b.loop
    && s.handedOut == b.handedOut && s.returned == b.returned && s.disconnects == b.disconnects
    && |s.sessions| == |b.sessions|
    && forall i :: 0 <= i < |s.sessions| ==> SameSession(b.sessions[i], s.sessions[i], sz)
  }

  // ---------- handlers do not look past what they read ----------

  /** z is y with the frames of x still in front of those y has added. */
  ghost predicate JoinedSession(x: Session<Bytes, Bytes>, y: Session<Bytes, Bytes>, z: Session<Bytes, Bytes>) {
    match y
    case Closed => z.Closed?
    case Open(c, alive, up, down) =>
      z == if x.Closed? then y else Open(c, alive, x.up + up, x.down + down)
  }

  ghost predicate Joined(s: Cluster<Bytes, Bytes>, t0: Cluster<Bytes, Bytes>, t: Cluster<Bytes, Bytes>) {
    && t == t0.(sessions := t.sessions)
    && |s.sessions| == |t0.sessions| == |t.sessions|
    && forall i :: 0 <= i < |s.sessions| ==> JoinedSession(s.sessions[i], t0.sessions[i], t.sessions[i])
  }

  /** What a handler has sent has the sizes of the protocol. */
  ghost predicate Sized(t: Cluster<Bytes, Bytes>, sz: Sizes) {
    forall i :: 0 <= i < |t.sessions| && t.sessions[i].Open? ==>
      && (forall k :: 0 <= k < |t.sessions[i].up| ==> Framing.WellFormed(t.sessions[i].up[k], sz.result))
      && (forall k :: 0 <= k < |t.sessions[i].down| ==> Framing.WellFormed(t.sessions[i].down[k], sz.task))
  }

  lemma RelinkSame(x: ByteSession, y: Session<Bytes, Bytes>, y0: Session<Bytes, Bytes>, z: Session<Bytes, Bytes>, sz: Sizes)
    requires SameSession(x, y, sz) && JoinedSession(y, y0, z)
    requires y0.Open? ==>
               && (forall k :: 0 <= k < |y0.up| ==> Framing.WellFormed(y0.up[k], sz.result))
               && (forall k :: 0 <= k < |y0.down| ==> Framing.WellFormed(y0.down[k], sz.task))
    ensures SameSession(Relink(x, y0), z, sz)
  {
    if y0.Open? {
      var up, down := if x.Gone? then Link([], []) else x.up, if x.Gone? then Link([], []) else x.down;
      var ups, downs := if y.Closed? then [] else y.up, if y.Closed? then [] else y.down;
      ExtendedCarries(up, ups, y0.up, sz.result);
      ExtendedCarries(down, downs, y0.down, sz.task);
      assert [] + y0.up == y0.up && [] + y0.down == y0.down;
    }
  }

  /** Carrying on with the links is carrying on with the queues. */
  lemma ReattachSame(b: ByteState, s: Cluster<Bytes, Bytes>, t0: Cluster<Bytes, Bytes>, t: Cluster<Bytes, Bytes>, sz: Sizes)
    requires Same(b, s, sz) && Joined(s, t0, t) && Sized(t0, sz)
    ensures Same(Reattach(b, t0), t, sz)
  {
    hide SameSession, JoinedSession, Relink, Framing.WellFormed;
    forall i | 0 <= i < |s.sessions| ensures SameSession(Relink(b.sessions[i], t0.sessions[i]), t.sessions[i], sz) {
      RelinkSame(b.sessions[i], s.sessions[i], t0.sessions[i], t.sessions[i], sz);
    }
  }

  /** The state with empty queues. */
  function Stripped(s: Cluster<Bytes, Bytes>): Cluster<Bytes, Bytes> {
    s.(sessions := seq(|s.sessions|, i requires 0 <= i < |s.sessions| =>
         match s.sessions[i] case Closed => Closed case Open(c, alive, _, _) => Open(c, alive, [], [])))
  }

  lemma CoreIsStripped(b: ByteState, s: Cluster<Bytes, Bytes>, sz: Sizes)
    requires Same(b, s, sz)
    ensures Core(b) == Stripped(s)
  {
    hide Framing.Carries;
    assert Bares(b.sessions) == Stripped(s).sessions;
  }

  // ---------- one action at a time ----------

  lemma UntouchedJoined(x: Session<Bytes, Bytes>)
    ensures x.Closed? ==> JoinedSession(x, x, x)
    ensures x.Open? ==> JoinedSession(x, Open(x.client, x.alive, [], []), x)
  {
    if x.Open? {
      assert x.up + [] == x.up && x.down + [] == x.down;
    }
  }

  /** At most session i was touched. */
  lemma OneJoined(s: Cluster<Bytes, Bytes>, t0: Cluster<Bytes, Bytes>, t: Cluster<Bytes, Bytes>, i: nat)
    requires t == t0.(sessions := t.sessions) && |s.sessions| == |t0.sessions| == |t.sessions|
    requires forall j :: 0 <= j < |s.sessions| && j != i ==>
               t.sessions[j] == s.sessions[j] && t0.sessions[j] == Stripped(s).sessions[j]
    requires i < |s.sessions| ==> JoinedSession(s.sessions[i], t0.sessions[i], t.sessions[i])
    ensures Joined(s, t0, t)
  {
    hide JoinedSession;
    forall j | 0 <= j < |s.sessions| ensures JoinedSession(s.sessions[j], t0.sessions[j], t.sessions[j]) {
      UntouchedJoined(s.sessions[j]);
    }
  }

  lemma StrippedFields(s: Cluster<Bytes, Bytes>)
    ensures Stripped(s) == s.(sessions := Stripped(s).sessions) && |Stripped(s).sessions| == |s.sessions|
    ensures forall i :: 0 <= i < |s.sessions| && s.sessions[i].Open? ==>
              Stripped(s).sessions[i] == Open(s.sessions[i].client, s.sessions[i].alive, [], [])
  {
  }

  lemma ConnectJoined(f: Bytes -> Bytes, s: Cluster<Bytes, Bytes>, c: Client<Bytes, Bytes>)
    requires ClusterInv(f, s) && Enabled(s, Connect(c)) && Enabled(Stripped(s), Connect(c))
    ensures Joined(s, Apply(f, Stripped(s), Connect(c)), Apply(f, s, Connect(c)))
  {
    hide ClusterInv, Joined, FreeConn, Fresh;
    var t0, t := Apply(f, Stripped(s), Connect(c)), Apply(f, s, Connect(c));
    if Accept(s.server).Accepted? {
      OpenIff(f, s, Accept(s.server).conn);
      OneJoined(s, t0, t, Accept(s.server).conn);
    } else {
      OneJoined(s, t0, t, |s.sessions|);
    }
  }

  /** What one iteration of the send loop does to the queues. */
  function SentTo<T, R>(xs: seq<Session<T, R>>, i: nat, it: IterResult<T, R>): seq<Session<T, R>>
    requires i < |xs| && xs[i].Open?
  {
    match it
    case IterSent(_, u) => xs[i := xs[i].(down := xs[i].down + [u])]
    case IterDropped(_) => xs[i := Closed]
    case _ => xs
  }

  lemma SendSessions(f: Bytes -> Bytes, s: Cluster<Bytes, Bytes>, o: SendOutcome)
    requires Enabled(s, SendTask(o)) && s.loop < |s.sessions| && s.sessions[s.loop].Open?
    ensures Apply(f, s, SendTask(o)).sessions == SentTo(s.sessions, s.loop, SendIter(s.server, s.loop, o))
  {
    hide SendIter, Held;
  }

  /** Apart from the queues it looks at the server only. */
  lemma SendRest(f: Bytes -> Bytes, s: Cluster<Bytes, Bytes>, s0: Cluster<Bytes, Bytes>, o: SendOutcome)
    requires Enabled(s, SendTask(o)) && Enabled(s0, SendTask(o)) && s0 == s.(sessions := s0.sessions)
    ensures var t, t0 := Apply(f, s, SendTask(o)), Apply(f, s0, SendTask(o)); t == t0.(sessions := t.sessions)
  {
    hide SendIter, Held;
  }

  lemma SendJoined(f: Bytes -> Bytes, s: Cluster<Bytes, Bytes>, o: SendOutcome)
    requires ClusterInv(f, s) && Enabled(s, SendTask(o)) && Enabled(Stripped(s), SendTask(o))
    ensures Joined(s, Apply(f, Stripped(s), SendTask(o)), Apply(f, s, SendTask(o)))
  {
    hide Inv, AllLinked, Correct, History, AbortSound, LoopSound, Live, SendIter, CanIterate, Joined, Stripped, Apply, Guard;
    SameLength(f, s);
    LoopOpen(s.server.conns, s.loop);
    OpenIff(f, s, s.loop);
    StrippedFields(s);
    SendSessions(f, s, o);
    SendSessions(f, Stripped(s), o);
    SendRest(f, s, Stripped(s), o);
    UntouchedJoined(s.sessions[s.loop]);
    OneJoined(s, Apply(f, Stripped(s), SendTask(o)), Apply(f, s, SendTask(o)), s.loop);
  }

  lemma ClientJoined(f: Bytes -> Bytes, s: Cluster<Bytes, Bytes>, a: Action<Bytes, Bytes>)
    requires Enabled(s, a) && Enabled(Stripped(s), a) && ClientAction(a) && !a.ClientReceive?
    ensures Joined(s, Apply(f, Stripped(s), a), Apply(f, s, a))
  {
    hide Settle, AfterNext, NextFrame, Compute, MarkReady, HasPending, Computing, Joined;
    UntouchedJoined(s.sessions[a.conn]);
    OneJoined(s, Apply(f, Stripped(s), a), Apply(f, s, a), a.conn);
  }

  /** An action that reads nothing does the same with empty queues. */
  lemma LocalJoined(f: Bytes -> Bytes, s: Cluster<Bytes, Bytes>, a: Action<Bytes, Bytes>)
    requires ClusterInv(f, s) && Enabled(s, a) && Enabled(Stripped(s), a) && !a.ServerReceive? && !a.ClientReceive?
    ensures Joined(s, Apply(f, Stripped(s), a), Apply(f, s, a))
  {
    hide ClusterInv, Disconnect, Held, Joined;
    match a {
      case Connect(c) => ConnectJoined(f, s, c);
      case SendTask(o) => SendJoined(f, s, o);
      case Disconnection(i, _) => OneJoined(s, Apply(f, Stripped(s), a), Apply(f, s, a), i);
      case Writable(_) => OneJoined(s, Apply(f, Stripped(s), a), Apply(f, s, a), |s.sessions|);
      case Finish => OneJoined(s, Apply(f, Stripped(s), a), Apply(f, s, a), |s.sessions|);
      case _ => ClientJoined(f, s, a);
    }
  }

  /** Payloads have the fixed sizes, and task numbers fit the header. */
  ghost predicate Fitting(f: Bytes -> Bytes, tasks: seq<Bytes>, sz: Sizes) {
    && |tasks| <= 0x1_0000_0000
    && (forall t :: 0 <= t < |tasks| ==> |tasks[t]| == sz.task && |f(tasks[t])| == sz.result)
  }

  lemma NextFrameSized(f: Bytes -> Bytes, tasks: seq<Bytes>, c: Conn, x: Session<Bytes, Bytes>, junk: Bytes, sz: Sizes)
    requires Live(f, tasks, c, x) && HasPending(x.client) && Fitting(f, tasks, sz) && |junk| == sz.result
    ensures Framing.WellFormed(NextFrame(x.client, junk), sz.result)
  {
    hide Located, Tokens, ArmedExact;
    var k := FirstWaiting(x.client.slots);
    if k < |x.client.slots| {
      assert SlotSound(f, tasks, x.client.slots[k]);
    }
  }

  lemma TaskFrameSized(f: Bytes -> Bytes, v: Server<Bytes, Bytes>, i: nat, o: SendOutcome, sz: Sizes)
    requires Inv(v) && i < |v.conns| && v.conns[i].open && v.conns[i].requested > 0 && CanIterate(v, i)
    requires Fitting(f, v.tasks, sz)
    ensures SendIter(v, i, o).IterSent? ==> Framing.WellFormed(SendIter(v, i, o).frame, sz.task)
  {
    hide Inv, SendIter, CanIterate, Available, Demand;
    IterAvailable(v, i, o);
  }

  lemma SendSized(f: Bytes -> Bytes, s: Cluster<Bytes, Bytes>, o: SendOutcome, sz: Sizes)
    requires ClusterInv(f, s) && Fitting(f, s.server.tasks, sz)
    requires Enabled(s, SendTask(o)) && Enabled(Stripped(s), SendTask(o))
    ensures Sized(Apply(f, Stripped(s), SendTask(o)), sz)
  {
    hide Inv, AllLinked, Correct, History, AbortSound, LoopSound, Live, Fitting, Framing.WellFormed,
         SendIter, CanIterate, Apply, Guard;
    SameLength(f, s);
    LoopOpen(s.server.conns, s.loop);
    OpenIff(f, s, s.loop);
    SendSessions(f, Stripped(s), o);
    TaskFrameSized(f, s.server, s.loop, o, sz);
  }

  lemma ClientSendSized(f: Bytes -> Bytes, s: Cluster<Bytes, Bytes>, i: nat, junk: Bytes, sz: Sizes)
    requires ClusterInv(f, s) && Fitting(f, s.server.tasks, sz) && |junk| == sz.result
    requires Enabled(s, ClientSend(i, junk)) && Enabled(Stripped(s), ClientSend(i, junk))
    ensures Sized(Apply(f, Stripped(s), ClientSend(i, junk)), sz)
  {
    hide ClusterInv, Live, Fitting, Framing.WellFormed, Settle, AfterNext, NextFrame, HasPending;
    OpenIff(f, s, i);
    NextFrameSized(f, s.server.tasks, s.server.conns[i], s.sessions[i], junk, sz);
  }

  /** What an action sends has the right size. */
  lemma LocalSized(f: Bytes -> Bytes, s: Cluster<Bytes, Bytes>, a: Action<Bytes, Bytes>, sz: Sizes)
    requires ClusterInv(f, s) && Fitting(f, s.server.tasks, sz)
    requires Enabled(s, a) && Enabled(Stripped(s), a) && !a.ServerReceive? && !a.ClientReceive?
    requires a.ClientSend? ==> |a.junk| == sz.result
    ensures Sized(Apply(f, Stripped(s), a), sz)
  {
    hide ClusterInv, Fitting, Framing.WellFormed, Disconnect, Compute, MarkReady;
    if a.SendTask? {
      SendSized(f, s, a.answer, sz);
    } else if a.ClientSend? {
      ClientSendSized(f, s, a.conn, a.junk, sz);
    }
  }

  // ---------- reading ----------

  /** One frame less in the queue to the server, or to the client. */
  function PoppedUp(s: Cluster<Bytes, Bytes>, i: nat): Cluster<Bytes, Bytes>
    requires i < |s.sessions| && s.sessions[i].Open? && s.sessions[i].up != []
  {
    s.(sessions := s.sessions[i := s.sessions[i].(up := s.sessions[i].up[1..])])
  }

  function PoppedDown(s: Cluster<Bytes, Bytes>, i: nat): Cluster<Bytes, Bytes>
    requires i < |s.sessions| && s.sessions[i].Open? && s.sessions[i].down != []
  {
    s.(sessions := s.sessions[i := s.sessions[i].(down := s.sessions[i].down[1..])])
  }

  /** Reading a piece leaves the queue as it is, or takes exactly its head. */
  lemma UpRead(b: ByteState, s: Cluster<Bytes, Bytes>, i: nat, n: nat, sz: Sizes)
    requires Same(b, s, sz) && i < |b.sessions| && b.sessions[i].Linked? && CanRead(b.sessions[i].up, n, sz.result)
    ensures i < |s.sessions| && s.sessions[i].Open?
    ensures var r := Taken(b.sessions[i].up, n, sz.result);
      if r.frames == [] then Same(AfterUp(b, i, n, sz), s, sz)
      else s.sessions[i].up != [] && r.frames == [s.sessions[i].up[0]] && Same(AfterUp(b, i, n, sz), PoppedUp(s, i), sz)
  {
    hide Framing.Carries, Framing.Accept;
    var l := b.sessions[i].up;
    assert SameSession(b.sessions[i], s.sessions[i], sz);
    Framing.ReadIsFifo(l.residue, l.wire, s.sessions[i].up, sz.result, n);
  }

  lemma DownRead(b: ByteState, s: Cluster<Bytes, Bytes>, i: nat, n: nat, sz: Sizes)
    requires Same(b, s, sz) && i < |b.sessions| && b.sessions[i].Linked? && CanRead(b.sessions[i].down, n, sz.task)
    ensures i < |s.sessions| && s.sessions[i].Open?
    ensures var r := Taken(b.sessions[i].down, n, sz.task);
      if r.frames == [] then Same(AfterDown(b, i, n, sz), s, sz)
      else s.sessions[i].down != [] && r.frames == [s.sessions[i].down[0]]
           && Same(AfterDown(b, i, n, sz), PoppedDown(s, i), sz)
  {
    hide Framing.Carries, Framing.Accept;
    var l := b.sessions[i].down;
    assert SameSession(b.sessions[i], s.sessions[i], sz);
    Framing.ReadIsFifo(l.residue, l.wire, s.sessions[i].down, sz.task, n);
  }

  /** Handling a received frame does the same with that frame alone in the queue. */
  lemma UpJoined(f: Bytes -> Bytes, s: Cluster<Bytes, Bytes>, i: nat)
    requires ClusterInv(f, s) && Guard(s, ServerReceive(i))
    ensures var s0 := WithUp(Stripped(s), i, s.sessions[i].up[0]);
      && Enabled(s, ServerReceive(i)) && Enabled(s0, ServerReceive(i))
      && var t0 := Apply(f, s0, ServerReceive(i));
         (forall sz :: Sized(t0, sz)) && Joined(PoppedUp(s, i), t0, Apply(f, s, ServerReceive(i)))
  {
    hide Inv, AllLinked, Correct, History, AbortSound, LoopSound, Live, Receive;
    AlwaysInBounds(f, s, ServerReceive(i));
    SameLength(f, s);
    ReceivedIsHandled(f, s, i);
    var s0 := WithUp(Stripped(s), i, s.sessions[i].up[0]);
    var t0, t := Apply(f, s0, ServerReceive(i)), Apply(f, s, ServerReceive(i));
    UntouchedJoined(PoppedUp(s, i).sessions[i]);
    OneJoined(PoppedUp(s, i), t0, t, i);
  }

  lemma ReceivedIsHandled(f: Bytes -> Bytes, s: Cluster<Bytes, Bytes>, i: nat)
    requires ClusterInv(f, s) && Enabled(s, ServerReceive(i))
    ensures Receive(s.server, i, s.sessions[i].up[0]).Handled?
  {
    hide ClusterInv, Push, Request, Disconnect;
    ReceivedFrame(f, s, i);
  }

  lemma DownJoined(f: Bytes -> Bytes, s: Cluster<Bytes, Bytes>, i: nat)
    requires ClusterInv(f, s) && Guard(s, ClientReceive(i))
    ensures var s0 := WithDown(Stripped(s), i, s.sessions[i].down[0]);
      && Enabled(s, ClientReceive(i)) && Enabled(s0, ClientReceive(i))
      && var t0 := Apply(f, s0, ClientReceive(i));
         (forall sz :: Sized(t0, sz)) && Joined(PoppedDown(s, i), t0, Apply(f, s, ClientReceive(i)))
  {
    hide ClusterInv, StartComputation;
    AlwaysInBounds(f, s, ClientReceive(i));
    NoSpareTask(f, s, i);
    var s0 := WithDown(Stripped(s), i, s.sessions[i].down[0]);
    var t0, t := Apply(f, s0, ClientReceive(i)), Apply(f, s, ClientReceive(i));
    UntouchedJoined(PoppedDown(s, i).sessions[i]);
    OneJoined(PoppedDown(s, i), t0, t, i);
  }

  // ---------- simulation ----------

  lemma LocalEnabled(f: Bytes -> Bytes, s: Cluster<Bytes, Bytes>, a: Action<Bytes, Bytes>)
    requires ClusterInv(f, s) && Guard(Stripped(s), a) && !a.ServerReceive? && !a.ClientReceive?
    ensures Enabled(s, a) && Enabled(Stripped(s), a)
  {
    hide ClusterInv, CanIterate, HasPending;
    AlwaysInBounds(f, s, a);
  }

  lemma ReadUpSimulates(f: Bytes -> Bytes, b: ByteState, s: Cluster<Bytes, Bytes>, i: nat, n: nat, sz: Sizes)
    returns (acts: seq<Action<Bytes, Bytes>>)
    requires ClusterInv(f, s) && Same(b, s, sz) && ByteGuard(b, ReadUp(i, n), sz)
    ensures ByteEnabled(b, ReadUp(i, n), sz)
    ensures acts == if Taken(b.sessions[i].up, n, sz.result).frames == [] then [] else [ServerReceive(i)]
    ensures IsRun(f, s, acts) && Same(ByteApply(f, b, ReadUp(i, n), sz), After(f, s, acts), sz)
  {
    hide ClusterInv, Same, Apply, Joined, Sized, InBounds, Reattach, IsRun, After;
    Fields(b, s, sz);
    UpRead(b, s, i, n, sz);
    var b1 := AfterUp(b, i, n, sz);
    if Taken(b.sessions[i].up, n, sz.result).frames == [] {
      acts := [];
      NoAction(f, s);
    } else {
      UpJoined(f, s, i);
      CoreIsStripped(b1, PoppedUp(s, i), sz);
      assert Stripped(PoppedUp(s, i)) == Stripped(s);
      OneAction(f, s, ServerReceive(i));
      acts := [ServerReceive(i)];
      var t0 := Apply(f, WithUp(Stripped(s), i, s.sessions[i].up[0]), ServerReceive(i));
      ReattachSame(b1, PoppedUp(s, i), t0, Apply(f, s, ServerReceive(i)), sz);
    }
  }

  lemma ReadDownSimulates(f: Bytes -> Bytes, b: ByteState, s: Cluster<Bytes, Bytes>, i: nat, n: nat, sz: Sizes)
    returns (acts: seq<Action<Bytes, Bytes>>)
    requires ClusterInv(f, s) && Same(b, s, sz) && ByteGuard(b, ReadDown(i, n), sz)
    ensures ByteEnabled(b, ReadDown(i, n), sz)
    ensures acts == if Taken(b.sessions[i].down, n, sz.task).frames == [] then [] else [ClientReceive(i)]
    ensures IsRun(f, s, acts) && Same(ByteApply(f, b, ReadDown(i, n), sz), After(f, s, acts), sz)
  {
    hide ClusterInv, Same, Apply, Joined, Sized, InBounds, Reattach, IsRun, After;
    Fields(b, s, sz);
    DownRead(b, s, i, n, sz);
    var b1 := AfterDown(b, i, n, sz);
    if Taken(b.sessions[i].down, n, sz.task).frames == [] {
      acts := [];
      NoAction(f, s);
    } else {
      DownJoined(f, s, i);
      CoreIsStripped(b1, PoppedDown(s, i), sz);
      assert Stripped(PoppedDown(s, i)) == Stripped(s);
      OneAction(f, s, ClientReceive(i));
      acts := [ClientReceive(i)];
      var t0 := Apply(f, WithDown(Stripped(s), i, s.sessions[i].down[0]), ClientReceive(i));
      ReattachSame(b1, PoppedDown(s, i), t0, Apply(f, s, ClientReceive(i)), sz);
    }
  }

  lemma NoAction(f: Bytes -> Bytes, s: Cluster<Bytes, Bytes>)
    ensures IsRun(f, s, []) && After(f, s, []) == s
  {
  }

  lemma Fields(b: ByteState, s: Cluster<Bytes, Bytes>, sz: Sizes)
    requires Same(b, s, sz)
    ensures s.phase == b.phase && s.loop == b.loop && |s.sessions| == |b.sessions| && s.server == b.server
    ensures forall i :: 0 <= i < |s.sessions| ==>
              (s.sessions[i].Open? <==> b.sessions[i].Linked?)
              && (s.sessions[i].Open? ==> s.sessions[i].alive == b.sessions[i].alive)
  {
    hide Framing.Carries;
    forall i | 0 <= i < |s.sessions|
      ensures s.sessions[i].Open? <==> b.sessions[i].Linked?
      ensures s.sessions[i].Open? ==> s.sessions[i].alive == b.sessions[i].alive
    {
      assert SameSession(b.sessions[i], s.sessions[i], sz);
    }
  }

  lemma LocalSimulates(f: Bytes -> Bytes, b: ByteState, s: Cluster<Bytes, Bytes>, a: Action<Bytes, Bytes>, sz: Sizes)
    requires ClusterInv(f, s) && Same(b, s, sz) && Fitting(f, s.server.tasks, sz) && ByteGuard(b, Local(a), sz)
    ensures ByteEnabled(b, Local(a), sz) && Enabled(s, a)
    ensures Same(ByteApply(f, b, Local(a), sz), Apply(f, s, a), sz)
  {
    hide ClusterInv, Same, Apply, Joined, Sized, InBounds, Reattach, Fitting, Guard;
    CoreIsStripped(b, s, sz);
    LocalEnabled(f, s, a);
    LocalJoined(f, s, a);
    LocalSized(f, s, a, sz);
    ReattachSame(b, s, Apply(f, Stripped(s), a), Apply(f, s, a), sz);
  }

  /** Every action on bytes is within bounds, and is one action on frames or none. */
  lemma ByteStep(f: Bytes -> Bytes, b: ByteState, s: Cluster<Bytes, Bytes>, a: ByteAction, sz: Sizes)
    returns (acts: seq<Action<Bytes, Bytes>>)
    requires ClusterInv(f, s) && Same(b, s, sz) && Fitting(f, s.server.tasks, sz) && ByteGuard(b, a, sz)
    ensures ByteEnabled(b, a, sz)
    ensures |acts| <= 1 && IsRun(f, s, acts) && Same(ByteApply(f, b, a, sz), After(f, s, acts), sz)
  {
    hide ClusterInv, Same, Fitting, Apply, IsRun, After, ByteApply, ByteEnabled, ByteGuard;
    match a
    case ReadUp(i, n) => acts := ReadUpSimulates(f, b, s, i, n, sz);
    case ReadDown(i, n) => acts := ReadDownSimulates(f, b, s, i, n, sz);
    case Local(c) =>
      LocalSimulates(f, b, s, c, sz);
      OneAction(f, s, c);
      acts := [c];
  }

  /** A read may take any number of bytes that have arrived, up to the end of the frame. */
  lemma WhatMayBeRead(f: Bytes -> Bytes, b: ByteState, s: Cluster<Bytes, Bytes>, i: nat, n: nat, sz: Sizes)
    requires ClusterInv(f, s) && Same(b, s, sz) && b.phase == Running
    ensures ByteEnabled(b, ReadUp(i, n), sz) <==>
              && b.loop == IDLE && i < |b.sessions| && b.sessions[i].Linked?
              && 0 < n <= |b.sessions[i].up.wire| && |b.sessions[i].up.residue| + n <= 5 + sz.result
    ensures ByteEnabled(b, ReadDown(i, n), sz) <==>
              && i < |b.sessions| && b.sessions[i].Linked? && b.sessions[i].alive
              && 0 < n <= |b.sessions[i].down.wire| && |b.sessions[i].down.residue| + n <= 5 + sz.task
  {
    hide ClusterInv, Same, ByteApply, IsRun, After, Taken, Enabled;
    if ByteGuard(b, ReadUp(i, n), sz) {
      var acts := ReadUpSimulates(f, b, s, i, n, sz);
    }
    if ByteGuard(b, ReadDown(i, n), sz) {
      var acts := ReadDownSimulates(f, b, s, i, n, sz);
    }
  }

  /** A link whose queue is not empty can deliver the rest of its first frame in one read. */
  lemma WholeFrame(l: Link, fs: seq<Frame<Bytes>>, size: nat) returns (n: nat)
    requires Framing.Carries(l.residue, l.wire, fs, size) && fs != []
    ensures CanRead(l, n, size) && Taken(l, n, size).frames != []
  {
    Framing.AtLeastAFrame(fs, size);
    n := Framing.HEADER_SIZE + size - |l.residue|;
  }

  /** Conversely every action on frames is one action on bytes. */
  lemma FrameStep(f: Bytes -> Bytes, b: ByteState, s: Cluster<Bytes, Bytes>, a: Action<Bytes, Bytes>, sz: Sizes)
    returns (ba: ByteAction)
    requires ClusterInv(f, s) && Same(b, s, sz) && Fitting(f, s.server.tasks, sz) && Enabled(s, a)
    requires a.ClientSend? ==> |a.junk| == sz.result
    ensures ByteEnabled(b, ba, sz) && Same(ByteApply(f, b, ba, sz), Apply(f, s, a), sz)
  {
    hide ClusterInv, Same, Fitting, Apply, IsRun, After, ByteApply, ByteEnabled, InBounds, Framing.Carries, Taken, CanRead;
    Fields(b, s, sz);
    if a.ServerReceive? {
      LinkCarries(b, s, a.conn, sz);
      var n := WholeFrame(b.sessions[a.conn].up, s.sessions[a.conn].up, sz.result);
      ba := ReadUp(a.conn, n);
      var acts := ReadUpSimulates(f, b, s, a.conn, n, sz);
      OneAction(f, s, a);
    } else if a.ClientReceive? {
      LinkCarries(b, s, a.conn, sz);
      var n := WholeFrame(b.sessions[a.conn].down, s.sessions[a.conn].down, sz.task);
      ba := ReadDown(a.conn, n);
      var acts := ReadDownSimulates(f, b, s, a.conn, n, sz);
      OneAction(f, s, a);
    } else {
      CoreIsStripped(b, s, sz);
      ba := Local(a);
      LocalSimulates(f, b, s, a, sz);
    }
  }

  lemma LinkCarries(b: ByteState, s: Cluster<Bytes, Bytes>, i: nat, sz: Sizes)
    requires Same(b, s, sz) && i < |s.sessions| && s.sessions[i].Open?
    ensures i < |b.sessions| && b.sessions[i].Linked?
    ensures Framing.Carries(b.sessions[i].up.residue, b.sessions[i].up.wire, s.sessions[i].up, sz.result)
    ensures Framing.Carries(b.sessions[i].down.residue, b.sessions[i].down.wire, s.sessions[i].down, sz.task)
  {
    hide Framing.Carries;
    assert SameSession(b.sessions[i], s.sessions[i], sz);
  }

  // ---------- whole runs ----------

  predicate IsByteRun(f: Bytes -> Bytes, b: ByteState, acts: seq<ByteAction>, sz: Sizes)
    decreases |acts|
  {
    acts != [] ==> ByteEnabled(b, acts[0], sz) && IsByteRun(f, ByteApply(f, b, acts[0], sz), acts[1..], sz)
  }

  function AfterBytes(f: Bytes -> Bytes, b: ByteState, acts: seq<ByteAction>, sz: Sizes): ByteState
    requires IsByteRun(f, b, acts, sz)
    decreases |acts|
  {
    if acts == [] then b else AfterBytes(f, ByteApply(f, b, acts[0], sz), acts[1..], sz)
  }

  function ByteInit(tasks: seq<Bytes>, rets: seq<Bytes>, maxClients: nat): ByteState {
    ByteState(Init(tasks, rets, maxClients), seq(maxClients, _ => Gone), Running, IDLE, 0, 0, 0)
  }

  /** Every run on bytes is a run on frames. */
  lemma {:induction false} ByteRunSimulates(f: Bytes -> Bytes, b: ByteState, s: Cluster<Bytes, Bytes>,
                                            bacts: seq<ByteAction>, sz: Sizes)
    returns (acts: seq<Action<Bytes, Bytes>>)
    requires ClusterInv(f, s) && Same(b, s, sz) && Fitting(f, s.server.tasks, sz) && IsByteRun(f, b, bacts, sz)
    ensures |acts| <= |bacts| && IsRun(f, s, acts) && Same(AfterBytes(f, b, bacts, sz), After(f, s, acts), sz)
    decreases |bacts|
  {
    hide ClusterInv, Same, Fitting, IsRun, After, ByteApply, ByteGuard;
    if bacts == [] {
      acts := [];
      NoAction(f, s);
    } else {
      var first := ByteStep(f, b, s, bacts[0], sz);
      var s1 := After(f, s, first);
      RunKeeps(f, s, first);
      var rest := ByteRunSimulates(f, ByteApply(f, b, bacts[0], sz), s1, bacts[1..], sz);
      AppendRun(f, s, first, rest);
      acts := first + rest;
    }
  }

  /** The distributed map over bytes: however the streams are cut into pieces, whatever connects,
      dies and disconnects, every state reached has a counterpart with queues of frames, finished
      tasks have the right value, and a server that left its event loop has the sequential map. */
  lemma ByteMap(f: Bytes -> Bytes, tasks: seq<Bytes>, rets: seq<Bytes>, maxClients: nat,
                bacts: seq<ByteAction>, sz: Sizes)
    returns (acts: seq<Action<Bytes, Bytes>>, s: Cluster<Bytes, Bytes>)
    requires |rets| == |tasks| && maxClients > 0 && Fitting(f, tasks, sz)
    requires IsByteRun(f, ByteInit(tasks, rets, maxClients), bacts, sz)
    ensures Reached(f, tasks, rets, maxClients, acts, s)
    ensures var e := AfterBytes(f, ByteInit(tasks, rets, maxClients), bacts, sz);
      && Same(e, s, sz) && |e.server.status| == |e.server.rets| == |tasks|
      && (forall t :: 0 <= t < |tasks| && e.server.status[t] == Completed ==> e.server.rets[t] == f(tasks[t]))
      && (e.phase == Finished ==> e.server.rets == SequentialMap(f, tasks))
  {
    hide ClusterInv, Fitting, IsRun, After, IsByteRun, AfterBytes;
    var s0 := InitCluster(tasks, rets, maxClients);
    InitClusterInv(f, tasks, rets, maxClients);
    acts := ByteRunSimulates(f, ByteInit(tasks, rets, maxClients), s0, bacts, sz);
    s := After(f, s0, acts);
    DistributedMap(f, tasks, rets, maxClients, acts, s);
  }
}
