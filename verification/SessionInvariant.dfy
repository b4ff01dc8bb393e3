/**
 * What holds of one connection and everything that hangs on it: where each of its tasks
 * is, how many requests and tasks are under way, and what the frames carry.
 */
module SessionInvariant {
  import opened Config
  import opened ServerModel
  import opened ServerInvariant
  import opened ClientModel
  import opened Cluster

  // ---------- where tasks are ----------

  /** The task of a busy entry of the thread table. */
  function SlotId<T, R>(x: Slot<T, R>): int {
    if x.empty then NO_TASK else x.taskId
  }

  function SlotIds<T, R>(slots: seq<Slot<T, R>>): (r: seq<int>)
    ensures |r| == |slots|
  {
    seq(|slots|, k requires 0 <= k < |slots| => SlotId(slots[k]))
  }

  function ResultId<R>(f: Frame<R>): int {
    if f.cmd == CMD_RESULT then f.id else NO_TASK
  }

  function ResultIds<R>(up: seq<Frame<R>>): (r: seq<int>)
    ensures |r| == |up|
  {
    seq(|up|, k requires 0 <= k < |up| => ResultId(up[k]))
  }

  /** Tasks of this connection, place by place: in hand in the send loop, in a frame to the
      client, in a busy thread entry, in a result on its way back. */
  ghost function Located<T, R>(c: Conn, x: Session<T, R>): multiset<int>
    requires x.Open? && (c.sending == NO_TASK || 0 <= c.sending < |c.cells|)
  {
    SendingTask(c) + multiset(Ids(x.down)) + Held(SlotIds(x.client.slots)) + Held(ResultIds(x.up))
  }

  /** Every thread of the client is accounted for by a request, a task or a result. */
  ghost function Tokens<T, R>(c: Conn, x: Session<T, R>): nat
    requires x.Open?
  {
    x.client.initial + |x.up| + c.requested + |x.down| + |Held(SlotIds(x.client.slots))|
  }

  // ---------- what frames and entries carry ----------

  ghost predicate UpFrame<T, R>(f: T -> R, tasks: seq<T>, u: Frame<R>) {
    || (u.cmd == CMD_REQUEST_FOR_DATA && u.id == NO_TASK_ID)
    || (u.cmd == CMD_RESULT && u.id < |tasks| && u.payload == f(tasks[u.id]))
  }

  ghost predicate SlotSound<T, R>(f: T -> R, tasks: seq<T>, x: Slot<T, R>) {
    && (x.empty ==> Blank(x)) && !(x.signalled && x.waiting)
    && (!x.empty ==>
          && 0 <= x.taskId < |tasks| && x.data == tasks[x.taskId]
          && (x.signalled || x.waiting ==> x.ret == f(tasks[x.taskId])))
  }

  ghost predicate Payloads<T, R>(f: T -> R, tasks: seq<T>, x: Session<T, R>)
    requires x.Open?
  {
    && (forall k :: 0 <= k < |x.down| ==> Truthful(tasks, x.down[k]))
    && (forall k :: 0 <= k < |x.up| ==> UpFrame(f, tasks, x.up[k]))
    && (forall k :: 0 <= k < |x.client.slots| ==> SlotSound(f, tasks, x.client.slots[k]))
  }

  ghost predicate Live<T, R>(f: T -> R, tasks: seq<T>, c: Conn, x: Session<T, R>) {
    && x.Open?
    && (c.sending == NO_TASK || 0 <= c.sending < |c.cells|)
    && Held(c.cells) == Located(c, x)
    && Tokens(c, x) == |x.client.slots| > 0
    && Payloads(f, tasks, x)
    && ArmedExact(x.client)
  }

  // ---------- multisets of streams ----------

  lemma PushId<P>(fs: seq<Frame<P>>, f: Frame<P>)
    ensures multiset(Ids(fs + [f])) == multiset(Ids(fs)) + multiset{f.id as int}
  {
    assert Ids(fs + [f]) == Ids(fs) + [f.id as int];
  }

  lemma PopId<P>(fs: seq<Frame<P>>)
    requires fs != []
    ensures multiset(Ids(fs)) == multiset{fs[0].id as int} + multiset(Ids(fs[1..]))
  {
    assert Ids(fs) == [fs[0].id as int] + Ids(fs[1..]);
  }

  function Single(t: int): multiset<int> {
    if t == NO_TASK then multiset{} else multiset{t}
  }

  lemma PushResult<R>(up: seq<Frame<R>>, u: Frame<R>)
    ensures Held(ResultIds(up + [u])) == Held(ResultIds(up)) + Single(ResultId(u))
  {
    assert ResultIds(up + [u]) == ResultIds(up) + [ResultId(u)];
  }

  lemma PopResult<R>(up: seq<Frame<R>>)
    requires up != []
    ensures Held(ResultIds(up)) == Single(ResultId(up[0])) + Held(ResultIds(up[1..]))
  {
    assert ResultIds(up) == [ResultId(up[0])] + ResultIds(up[1..]);
  }

  lemma SlotChange<T, R>(slots: seq<Slot<T, R>>, k: nat, x: Slot<T, R>)
    requires k < |slots|
    ensures SlotId(x) == SlotId(slots[k]) ==> Held(SlotIds(slots[k := x])) == Held(SlotIds(slots))
    ensures SlotId(slots[k]) == NO_TASK && SlotId(x) != NO_TASK ==>
              Held(SlotIds(slots[k := x])) == Held(SlotIds(slots)) + multiset{SlotId(x)}
    ensures SlotId(slots[k]) != NO_TASK && SlotId(x) == NO_TASK ==>
              Held(SlotIds(slots)) == Held(SlotIds(slots[k := x])) + multiset{SlotId(slots[k])}
  {
    assert SlotIds(slots[k := x]) == SlotIds(slots)[k := SlotId(x)];
    if SlotId(x) == SlotId(slots[k]) {
      assert SlotIds(slots)[k := SlotId(x)] == SlotIds(slots);
    } else {
      HeldUpdate(SlotIds(slots), k, SlotId(x));
    }
  }

  // ---------- consequences ----------

  /** A task frame for the client always finds a free thread entry. */
  lemma AlwaysAFreeThread<T, R>(f: T -> R, tasks: seq<T>, c: Conn, x: Session<T, R>)
    requires Live(f, tasks, c, x) && x.down != []
    ensures FirstEmpty(x.client.slots) < |x.client.slots|
  {
    var ids := SlotIds(x.client.slots);
    HeldSize(ids);
    var k := IndexOf(ids, NO_TASK);
    assert SlotSound(f, tasks, x.client.slots[k]);
  }

  /** A result that arrives is for a task some cell of this connection holds. */
  lemma ResultIsExpected<T, R>(f: T -> R, tasks: seq<T>, c: Conn, x: Session<T, R>)
    requires Live(f, tasks, c, x) && x.up != [] && x.up[0].cmd == CMD_RESULT
    ensures x.up[0].id as int in Held(c.cells) && x.up[0].id < |tasks| && x.up[0].payload == f(tasks[x.up[0].id])
  {
    PopResult(x.up);
    assert UpFrame(f, tasks, x.up[0]);
  }

  /** Cells in use never exceed the client's threads, and one is left for each request. */
  lemma CellBudget<T, R>(f: T -> R, tasks: seq<T>, c: Conn, x: Session<T, R>)
    requires Live(f, tasks, c, x)
    ensures |Held(c.cells)| + c.requested + x.client.initial + |x.up| - |Held(ResultIds(x.up))|
         == |x.client.slots| + |SendingTask(c)|
    ensures |Held(ResultIds(x.up))| <= |x.up|
  {
    HeldSize(ResultIds(x.up));
  }

  // ---------- steps of the client ----------

  lemma ConnectLive<T, R>(f: T -> R, tasks: seq<T>, c: Conn, client: Client<T, R>)
    requires Fresh(client) && c.sending == NO_TASK && c.requested == 0 && Held(c.cells) == multiset{}
    ensures Live(f, tasks, c, Open(client, true, [], []))
  {
    assert SlotIds(client.slots) == seq(|client.slots|, _ => NO_TASK);
    HeldBlank(|client.slots|);
    FreshArmed(client);
  }

  lemma ClientReceiveLive<T, R>(f: T -> R, tasks: seq<T>, c: Conn, x: Session<T, R>)
    requires Live(f, tasks, c, x) && x.down != []
    ensures var r := StartComputation(x.client, x.down[0].id, x.down[0].payload);
      r.Some? && Live(f, tasks, c, x.(client := r.value, down := x.down[1..]))
  {
    AlwaysAFreeThread(f, tasks, c, x);
    ReceiveIntoLive(f, tasks, c, x, FirstEmpty(x.client.slots));
    hide Live;
  }

  lemma ReceiveIntoLive<T, R>(f: T -> R, tasks: seq<T>, c: Conn, x: Session<T, R>, k: nat)
    requires Live(f, tasks, c, x) && x.down != [] && k < |x.client.slots| && x.client.slots[k].empty
    ensures var y := x.client.slots[k].(empty := false, taskId := x.down[0].id, data := x.down[0].payload);
      Live(f, tasks, c, x.(client := x.client.(slots := x.client.slots[k := y]), down := x.down[1..]))
  {
    hide Held, FirstWaiting;
    var y := x.client.slots[k].(empty := false, taskId := x.down[0].id, data := x.down[0].payload);
    var x' := x.(client := x.client.(slots := x.client.slots[k := y]), down := x.down[1..]);
    assert Truthful(tasks, x.down[0]) && SlotSound(f, tasks, x.client.slots[k]);
    assert Payloads(f, tasks, x') by {
      assert SlotSound(f, tasks, y);
      hide Located, Tokens, ArmedExact;
    }
    assert Located(c, x') == Located(c, x) && Tokens(c, x') == Tokens(c, x) by {
      hide Payloads, SlotSound, Truthful, ArmedExact;
      PopId(x.down);
      SlotChange(x.client.slots, k, y);
    }
    WaitingUnchanged(x.client.slots, k, y);
  }

  lemma ClientComputeLive<T, R>(f: T -> R, tasks: seq<T>, c: Conn, x: Session<T, R>, k: nat)
    requires Live(f, tasks, c, x) && k < |x.client.slots| && Computing(x.client.slots[k])
    ensures Live(f, tasks, c, x.(client := Compute(x.client, k, f)))
  {
    var y := Compute(x.client, k, f).slots[k];
    assert SlotSound(f, tasks, x.client.slots[k]);
    SlotChange(x.client.slots, k, y);
    WaitingUnchanged(x.client.slots, k, y);
  }

  lemma ClientReadyLive<T, R>(f: T -> R, tasks: seq<T>, c: Conn, x: Session<T, R>, k: nat)
    requires Live(f, tasks, c, x) && k < |x.client.slots| && x.client.slots[k].signalled
    ensures Live(f, tasks, c, x.(client := MarkReady(x.client, k)))
  {
    var d := MarkReady(x.client, k);
    assert SlotSound(f, tasks, x.client.slots[k]);
    SlotChange(x.client.slots, k, d.slots[k]);
    assert d.slots[k].waiting;
  }

  lemma ClientSendLive<T, R>(f: T -> R, tasks: seq<T>, c: Conn, x: Session<T, R>, junk: R)
    requires Live(f, tasks, c, x) && HasPending(x.client)
    ensures Live(f, tasks, c, x.(client := Settle(AfterNext(x.client)), up := x.up + [NextFrame(x.client, junk)]))
  {
    hide Located, Tokens, Payloads, ArmedExact, FirstWaiting;
    if FirstWaiting(x.client.slots) < |x.client.slots| {
      SendResultLive(f, tasks, c, x, FirstWaiting(x.client.slots));
    } else {
      SendRequestLive(f, tasks, c, x, junk);
    }
  }

  lemma SendRequestLive<T, R>(f: T -> R, tasks: seq<T>, c: Conn, x: Session<T, R>, junk: R)
    requires Live(f, tasks, c, x) && x.client.initial > 0
    ensures Live(f, tasks, c, x.(client := Settle(x.client.(initial := x.client.initial - 1)),
                                 up := x.up + [RequestFrame(junk)]))
  {
    hide SlotSound, FirstWaiting, Held, Truthful;
    PushResult(x.up, RequestFrame(junk));
  }

  lemma SendResultLive<T, R>(f: T -> R, tasks: seq<T>, c: Conn, x: Session<T, R>, k: nat)
    requires Live(f, tasks, c, x) && k < |x.client.slots| && x.client.slots[k].waiting
    ensures var y := x.client.slots[k];
      Live(f, tasks, c, x.(client := Settle(x.client.(slots := x.client.slots[k := Freed(y)])),
                           up := x.up + [ResultFrame(y)]))
  {
    hide Held, FirstWaiting;
    var y := x.client.slots[k];
    var x' := x.(client := Settle(x.client.(slots := x.client.slots[k := Freed(y)])), up := x.up + [ResultFrame(y)]);
    assert SlotSound(f, tasks, y);
    assert Payloads(f, tasks, x') by {
      assert UpFrame(f, tasks, ResultFrame(y)) && SlotSound(f, tasks, Freed(y));
    }
    assert Located(c, x') == Located(c, x) && Tokens(c, x') == Tokens(c, x) by {
      hide Payloads, SlotSound;
      PushResult(x.up, ResultFrame(y));
      SlotChange(x.client.slots, k, Freed(y));
    }
  }

  // ---------- steps of the server ----------

  /** The server read a request. */
  lemma RequestLive<T, R>(f: T -> R, tasks: seq<T>, c: Conn, x: Session<T, R>, c': Conn)
    requires Live(f, tasks, c, x) && x.up != [] && x.up[0].cmd == CMD_REQUEST_FOR_DATA
    requires c'.cells == c.cells && c'.sending == c.sending && c'.requested == c.requested + 1
    ensures Live(f, tasks, c', x.(up := x.up[1..]))
  {
    PopResult(x.up);
  }

  /** The server read a result and emptied its cell. */
  lemma ResultLive<T, R>(f: T -> R, tasks: seq<T>, c: Conn, x: Session<T, R>, k: nat, c': Conn)
    requires Live(f, tasks, c, x) && x.up != [] && x.up[0].cmd == CMD_RESULT && c.sending == NO_TASK
    requires k < |c.cells| && c.cells[k] == x.up[0].id
    requires c'.cells == c.cells[k := NO_TASK] && c'.sending == c.sending && c'.requested == c.requested + 1
    ensures Live(f, tasks, c', x.(up := x.up[1..]))
  {
    hide SlotSound, UpFrame, Truthful, Held, ArmedExact;
    var x' := x.(up := x.up[1..]);
    PopResult(x.up);
    HeldUpdate(c.cells, k, NO_TASK);
    TakeOut(Held(c.cells), multiset(Ids(x.down)) + Held(SlotIds(x.client.slots)), Held(ResultIds(x'.up)), c.cells[k]);
  }

  lemma TakeOut(all: multiset<int>, rest: multiset<int>, up: multiset<int>, t: int)
    requires all == rest + (multiset{t} + up)
    ensures all - multiset{t} == rest + up
  {
  }

  /** The send loop took a new task. */
  lemma TakeLive<T, R>(f: T -> R, tasks: seq<T>, c: Conn, x: Session<T, R>, k: nat, t: nat)
    requires Live(f, tasks, c, x) && c.sending == NO_TASK && k < |c.cells| && c.cells[k] == NO_TASK
    ensures Live(f, tasks, c.(cells := c.cells[k := t], sending := k), x)
  {
    HeldUpdate(c.cells, k, t);
  }

  /** The task in hand was sent. */
  lemma SentLive<T, R>(f: T -> R, tasks: seq<T>, c: Conn, x: Session<T, R>, u: Frame<T>)
    requires Live(f, tasks, c, x) && c.sending != NO_TASK && c.requested > 0
    requires Truthful(tasks, u) && c.cells[c.sending] == u.id
    ensures Live(f, tasks, AfterSend(c), x.(down := x.down + [u]))
  {
    PushId(x.down, u);
  }
}
