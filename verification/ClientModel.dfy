/**
 * The client's thread table as a value, with the event handlers as functions on it, and
 * the order in which a write event sends what is waiting.
 */
module ClientModel {
  import opened Config

  /** One entry of the thread table. `signalled` is a pending event of the entry's eventfd. */
  datatype Slot<T, R> = Slot(empty: bool, taskId: int, data: T, ret: R, signalled: bool, waiting: bool)

  datatype Client<T, R> = Client(slots: seq<Slot<T, R>>, initial: nat, armed: bool)

  // ---------- searches ----------

  function FirstEmpty<T, R>(slots: seq<Slot<T, R>>): (r: nat)
    ensures r <= |slots|
    ensures r < |slots| ==> slots[r].empty
    ensures forall k :: 0 <= k < r ==> !slots[k].empty
  {
    if slots == [] || slots[0].empty then 0 else 1 + FirstEmpty(slots[1..])
  }

  function FirstWaiting<T, R>(slots: seq<Slot<T, R>>): (r: nat)
    ensures r <= |slots|
    ensures r < |slots| ==> slots[r].waiting
    ensures forall k :: 0 <= k < r ==> !slots[k].waiting
  {
    if slots == [] || slots[0].waiting then 0 else 1 + FirstWaiting(slots[1..])
  }

  // ---------- frames ----------

  function ResultFrame<T, R>(x: Slot<T, R>): Frame<R> {
    Frame(CMD_RESULT, if x.taskId >= 0 then x.taskId else NO_TASK_ID, x.ret)
  }

  /** A request carries whatever the send buffer held. */
  function RequestFrame<R>(junk: R): Frame<R> {
    Frame(CMD_REQUEST_FOR_DATA, NO_TASK_ID, junk)
  }

  // ---------- handlers ----------

  predicate Blank<T, R>(x: Slot<T, R>) {
    x.empty && !x.signalled && !x.waiting
  }

  /** The client right after connecting: all entries blank, one request per thread to send. */
  predicate Fresh<T, R>(c: Client<T, R>) {
    && |c.slots| > 0 && c.initial == |c.slots| && c.armed
    && forall k :: 0 <= k < |c.slots| ==> Blank(c.slots[k])
  }

  /** A client with a single thread. */
  function OneThread<T, R>(x: T, r: R): Client<T, R> {
    Client([Slot(true, NO_TASK, x, r, false, false)], 1, true)
  }

  /** `start_computation`; None is the "Recieved spare computation task" exit. */
  function StartComputation<T, R>(c: Client<T, R>, id: nat, data: T): Option<Client<T, R>> {
    var k := FirstEmpty(c.slots);
    if k == |c.slots| then None
    else Some(c.(slots := c.slots[k := c.slots[k].(empty := false, taskId := id, data := data)]))
  }

  predicate Computing<T, R>(x: Slot<T, R>) {
    !x.empty && !x.signalled && !x.waiting
  }

  /** `computation_wrapper`: the thread stores its result and signals the eventfd. */
  function Compute<T, R>(c: Client<T, R>, k: nat, f: T -> R): Client<T, R>
    requires k < |c.slots|
  {
    c.(slots := c.slots[k := c.slots[k].(ret := f(c.slots[k].data), signalled := true)])
  }

  /** `mark_computation_as_ready`, followed by arming write events. */
  function MarkReady<T, R>(c: Client<T, R>, k: nat): Client<T, R>
    requires k < |c.slots|
  {
    c.(slots := c.slots[k := c.slots[k].(waiting := true, signalled := false)], armed := true)
  }

  predicate HasPending<T, R>(c: Client<T, R>) {
    c.initial != 0 || FirstWaiting(c.slots) < |c.slots|
  }

  /** The next frame of the send loops: finished results in table order, then requests. */
  function NextFrame<T, R>(c: Client<T, R>, junk: R): Frame<R>
    requires HasPending(c)
  {
    var k := FirstWaiting(c.slots);
    if k < |c.slots| then ResultFrame(c.slots[k]) else RequestFrame(junk)
  }

  /** An entry whose result was sent. */
  function Freed<T, R>(x: Slot<T, R>): Slot<T, R> {
    x.(waiting := false, empty := true)
  }

  /** After that frame was sent. */
  function AfterNext<T, R>(c: Client<T, R>): Client<T, R>
    requires HasPending(c)
  {
    var k := FirstWaiting(c.slots);
    if k < |c.slots| then c.(slots := c.slots[k := Freed(c.slots[k])])
    else c.(initial := c.initial - 1)
  }

  /** What is sent next: the result of the first entry that waits, which frees the entry; a
      request, with a number no task has, only when no entry waits. */
  lemma ResultsFirst<T, R>(c: Client<T, R>, junk: R)
    ensures HasPending(c) <==> c.initial > 0 || exists k :: 0 <= k < |c.slots| && c.slots[k].waiting
    ensures HasPending(c) && (forall k :: 0 <= k < |c.slots| ==> !c.slots[k].waiting) ==>
              NextFrame(c, junk) == Frame(2, 0xFFFF_FFFF, junk) && AfterNext(c) == c.(initial := c.initial - 1)
    ensures forall k :: 0 <= k < |c.slots| && c.slots[k].waiting && (forall j :: 0 <= j < k ==> !c.slots[j].waiting) ==>
              && HasPending(c)
              && (c.slots[k].taskId >= 0 ==> NextFrame(c, junk) == Frame(3, c.slots[k].taskId, c.slots[k].ret))
              && AfterNext(c) == c.(slots := c.slots[k := c.slots[k].(waiting := false, empty := true)])
  {
    var w := FirstWaiting(c.slots);
    if w < |c.slots| {
      assert c.slots[w].waiting;
    }
  }

  /** Write interest is withdrawn once the loops have run dry. */
  function Settle<T, R>(c: Client<T, R>): Client<T, R> {
    c.(armed := HasPending(c))
  }

  datatype Flushed<T, R> = Flushed(client: Client<T, R>, sent: seq<Frame<R>>)

  /** A write event during which `budget` sends succeed before the socket is full. */
  function Flush<T, R>(c: Client<T, R>, budget: nat, junk: R): Flushed<T, R>
    decreases budget
  {
    if !HasPending(c) || budget == 0 then Flushed(Settle(c), [])
    else
      var rest := Flush(AfterNext(c), budget - 1, junk);
      rest.(sent := [NextFrame(c, junk)] + rest.sent)
  }

  // ---------- what a write event sends ----------

  /** Everything the client has to send, in order. */
  function Outgoing<T, R>(c: Client<T, R>, junk: R): seq<Frame<R>> {
    Results(c.slots, 0) + seq(c.initial, _ => RequestFrame(junk))
  }

  function Results<T, R>(slots: seq<Slot<T, R>>, j: nat): seq<Frame<R>>
    requires j <= |slots|
    decreases |slots| - j
  {
    if j == |slots| then []
    else (if slots[j].waiting then [ResultFrame(slots[j])] else []) + Results(slots, j + 1)
  }

  lemma {:induction false} ResultsSkip<T, R>(slots: seq<Slot<T, R>>, j: nat, k: nat)
    requires j <= k <= |slots| && forall m :: j <= m < k ==> !slots[m].waiting
    ensures Results(slots, j) == Results(slots, k)
    decreases k - j
  {
    hide ResultFrame;
    if j < k {
      ResultsSkip(slots, j + 1, k);
    }
  }

  lemma {:induction false} ResultsAbove<T, R>(slots: seq<Slot<T, R>>, k: nat, x: Slot<T, R>, j: nat)
    requires k < j <= |slots|
    ensures Results(slots[k := x], j) == Results(slots, j)
    decreases |slots| - j
  {
    if j < |slots| {
      ResultsAbove(slots, k, x, j + 1);
    }
  }

  lemma ResultsHead<T, R>(slots: seq<Slot<T, R>>)
    ensures var k := FirstWaiting(slots);
      Results(slots, 0) == if k == |slots| then []
                           else [ResultFrame(slots[k])] + Results(slots[k := Freed(slots[k])], 0)
  {
    var k := FirstWaiting(slots);
    ResultsSkip(slots, 0, k);
    if k < |slots| {
      ResultsAbove(slots, k, Freed(slots[k]), k + 1);
      ResultsSkip(slots[k := Freed(slots[k])], 0, k + 1);
    }
  }

  /** One send takes the head of the outgoing list. */
  lemma OutgoingHead<T, R>(c: Client<T, R>, junk: R)
    ensures HasPending(c) <==> Outgoing(c, junk) != []
    ensures HasPending(c) ==> Outgoing(c, junk) == [NextFrame(c, junk)] + Outgoing(AfterNext(c), junk)
  {
    ResultsHead(c.slots);
    if HasPending(c) && FirstWaiting(c.slots) == |c.slots| {
      assert seq(c.initial, _ => RequestFrame(junk))
          == [RequestFrame(junk)] + seq(c.initial - 1, _ => RequestFrame(junk));
    }
  }

  /** A write event sends the longest affordable prefix, keeps the rest in order, and leaves
      write interest set exactly when something is left. */
  lemma {:induction false} FlushExact<T, R>(c: Client<T, R>, budget: nat, junk: R)
    ensures var all, r := Outgoing(c, junk), Flush(c, budget, junk);
            var n := if budget <= |all| then budget else |all|;
      && r.sent == all[..n]
      && Outgoing(r.client, junk) == all[n..]
      && (r.client.armed <==> n < |all|)
    decreases budget
  {
    OutgoingHead(c, junk);
    if HasPending(c) && budget > 0 {
      FlushExact(AfterNext(c), budget - 1, junk);
    }
  }

  // ---------- a write event as single sends ----------

  /** n sends, one at a time, with write interest brought up to date after each. */
  function SendMany<T, R>(c: Client<T, R>, n: nat): Client<T, R>
    decreases n
  {
    if n == 0 || !HasPending(c) then c else SendMany(Settle(AfterNext(c)), n - 1)
  }

  lemma {:induction false} FlushIgnoresArmed<T, R>(c: Client<T, R>, armed: bool, budget: nat, junk: R)
    ensures Flush(c.(armed := armed), budget, junk) == Flush(c, budget, junk)
    decreases budget
  {
    if HasPending(c) && budget > 0 {
      assert AfterNext(c.(armed := armed)) == AfterNext(c).(armed := armed);
      FlushIgnoresArmed(AfterNext(c), armed, budget - 1, junk);
    }
  }

  /** A write event that manages `budget` sends is that many single sends. */
  lemma {:induction false} FlushIsSends<T, R>(c: Client<T, R>, budget: nat, junk: R)
    requires c.armed <==> HasPending(c)
    ensures Flush(c, budget, junk).client == SendMany(c, budget)
    decreases budget
  {
    if HasPending(c) && budget > 0 {
      var d := AfterNext(c);
      FlushIgnoresArmed(d, HasPending(d), budget - 1, junk);
      FlushIsSends(Settle(d), budget - 1, junk);
    }
  }

  // ---------- the write-interest invariant ----------

  /** Write events are armed exactly while something waits to be sent. */
  predicate ArmedExact<T, R>(c: Client<T, R>) {
    c.armed <==> HasPending(c)
  }

  lemma FreshArmed<T, R>(c: Client<T, R>)
    requires Fresh(c)
    ensures ArmedExact(c)
  {
  }

  /** Every handler keeps the write interest exact; no finished result is stranded. */
  lemma HandlersKeepArmed<T, R>(c: Client<T, R>, k: nat, id: nat, data: T, f: T -> R, budget: nat, junk: R)
    requires ArmedExact(c) && k < |c.slots|
    ensures StartComputation(c, id, data).Some? ==> ArmedExact(StartComputation(c, id, data).value)
    ensures ArmedExact(Compute(c, k, f))
    ensures ArmedExact(MarkReady(c, k))
    ensures ArmedExact(Flush(c, budget, junk).client)
  {
    var e := FirstEmpty(c.slots);
    if e < |c.slots| {
      WaitingUnchanged(c.slots, e, c.slots[e].(empty := false, taskId := id, data := data));
    }
    WaitingUnchanged(c.slots, k, c.slots[k].(ret := f(c.slots[k].data), signalled := true));
    assert MarkReady(c, k).slots[k].waiting;
    FlushArmed(c, budget, junk);
  }

  lemma FlushArmed<T, R>(c: Client<T, R>, budget: nat, junk: R)
    ensures ArmedExact(Flush(c, budget, junk).client)
  {
    FlushExact(c, budget, junk);
    OutgoingHead(Flush(c, budget, junk).client, junk);
  }

  lemma WaitingUnchanged<T, R>(slots: seq<Slot<T, R>>, k: nat, x: Slot<T, R>)
    requires k < |slots| && x.waiting == slots[k].waiting
    ensures FirstWaiting(slots[k := x]) == FirstWaiting(slots)
  {
    var a, b := FirstWaiting(slots), FirstWaiting(slots[k := x]);
    assert forall j :: 0 <= j < |slots| ==> slots[k := x][j].waiting == slots[j].waiting;
    assert a < |slots| ==> slots[k := x][a].waiting;
    assert b < |slots| ==> slots[b].waiting;
  }
}
