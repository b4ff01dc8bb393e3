/**
 * The client's thread table as its event loop works on it, updated in place and proved
 * against the handlers of ClientModel.
 */
module ClientHandle {
  import opened Config
  import opened ClientModel

  /** The same outcome with frames sent earlier in front. */
  function Behind<T, R>(sent: seq<Frame<R>>, r: Flushed<T, R>): Flushed<T, R> {
    r.(sent := sent + r.sent)
  }

  /** One more send, as both loops of the write handler see it. */
  lemma FlushOne<T, R>(c: Client<T, R>, left: nat, junk: R, sent: seq<Frame<R>>)
    requires HasPending(c) && left > 0
    ensures Behind(sent, Flush(c, left, junk)) == Behind(sent + [NextFrame(c, junk)], Flush(AfterNext(c), left - 1, junk))
  {
    var r := Flush(AfterNext(c), left - 1, junk);
    assert sent + ([NextFrame(c, junk)] + r.sent) == (sent + [NextFrame(c, junk)]) + r.sent;
  }

  lemma BehindNothing<T, R>(r: Flushed<T, R>)
    ensures Behind([], r) == r
  {
    assert [] + r.sent == r.sent;
  }

  /** The socket is full, or nothing is left to send. */
  lemma FlushStops<T, R>(c: Client<T, R>, left: nat, junk: R, sent: seq<Frame<R>>)
    requires !HasPending(c) || left == 0
    ensures Behind(sent, Flush(c, left, junk)) == Flushed(Settle(c), sent)
  {
    assert sent + [] == sent;
  }

  class Handle<T, R> {
    const slots: array<Slot<T, R>>
    var initial: nat
    var armed: bool

    ghost function View(): Client<T, R>
      reads this, slots
    {
      Client(slots[..], initial, armed)
    }

    /** `init_task_management_routine` on a freshly allocated table, then connecting. */
    constructor (table: array<Slot<T, R>>)
      requires table.Length > 0
      modifies table
      ensures slots == table && Fresh(View())
      ensures forall k :: 0 <= k < table.Length ==>
                slots[k].data == old(table[k].data) && slots[k].ret == old(table[k].ret)
    {
      slots, initial, armed := table, table.Length, true;
      new;
      for i := 0 to slots.Length
        invariant initial == slots.Length && armed
        invariant forall k :: 0 <= k < i ==> Blank(slots[k])
        invariant forall k :: 0 <= k < slots.Length ==>
                    slots[k].data == old(table[k].data) && slots[k].ret == old(table[k].ret)
      {
        slots[i] := slots[i].(empty := true, taskId := NO_TASK, signalled := false, waiting := false);
      }
    }

    /** `start_computation`: false is the "spare computation task" exit. */
    method Start(id: nat, data: T) returns (started: bool)
      modifies slots
      ensures match StartComputation(old(View()), id, data)
              case None => !started && View() == old(View())
              case Some(c) => started && View() == c
    {
      var k := 0;
      while k < slots.Length
        invariant k <= slots.Length
        invariant forall j :: 0 <= j < k ==> !slots[j].empty
        invariant View() == old(View())
      {
        if slots[k].empty { break; }
        k := k + 1;
      }
      assert k == FirstEmpty(old(slots[..]));
      if k == slots.Length { return false; }
      slots[k] := slots[k].(empty := false, taskId := id, data := data);
      return true;
    }

    /** The end of a computation thread: the result is stored and the event raised. */
    method FinishComputation(k: nat, f: T -> R)
      requires k < slots.Length
      modifies slots
      ensures View() == Compute(old(View()), k, f)
    {
      slots[k] := slots[k].(ret := f(slots[k].data), signalled := true);
    }

    /** `mark_computation_as_ready` and the arming of write events after it. */
    method MarkAsReady(k: nat)
      requires k < slots.Length
      modifies this`armed, slots
      ensures View() == MarkReady(old(View()), k)
    {
      slots[k] := slots[k].(waiting := true, signalled := false);
      armed := true;
    }

    /** A write event: results in table order, then the remaining initial requests, until the
        socket is full after `budget` sends or there is nothing left. */
    method HandleWritable(budget: nat, junk: R) returns (sent: seq<Frame<R>>)
      requires armed
      modifies this, slots
      ensures Flushed(View(), sent) == Flush(old(View()), budget, junk)
    {
      hide Flush, Behind, Fresh;
      sent := [];
      var left := budget;
      ghost var all := Flush(View(), budget, junk);
      BehindNothing(all);
      var k := 0;
      while k < slots.Length
        invariant k <= slots.Length
        invariant forall j :: 0 <= j < k ==> !slots[j].waiting
        invariant armed
        invariant all == Behind(sent, Flush(View(), left, junk))
      {
        if slots[k].waiting {
          assert FirstWaiting(slots[..]) == k;
          if left == 0 {
            FlushStops(View(), left, junk, sent);
            return;
          }
          FlushOne(View(), left, junk, sent);
          sent := sent + [ResultFrame(slots[k])];
          slots[k] := Freed(slots[k]);
          left := left - 1;
        }
        k := k + 1;
      }
      assert FirstWaiting(slots[..]) == slots.Length;
      while initial != 0
        invariant FirstWaiting(slots[..]) == slots.Length && armed
        invariant all == Behind(sent, Flush(View(), left, junk))
      {
        if left == 0 {
          FlushStops(View(), left, junk, sent);
          return;
        }
        FlushOne(View(), left, junk, sent);
        sent := sent + [RequestFrame(junk)];
        initial := initial - 1;
        left := left - 1;
      }
      FlushStops(View(), left, junk, sent);
      armed := false;
    }
  }
}
