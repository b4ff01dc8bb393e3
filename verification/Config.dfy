/** Constants and the frame format shared by the two sides of the cluster. */
module Config {

  // Size of one connection's task list on the server.
  const MAX_TASKS_PER_CLIENT: nat := 16

  // The value an unused 32-bit cell is filled with (-1 in the source).
  const NO_TASK: int := -1

  const ERR_CONN_BROKEN: nat := 0
  const ERR_NOT_READY: nat := 1
  const CMD_REQUEST_FOR_DATA: nat := 2
  const CMD_RESULT: nat := 3
  const CMD_TASK: nat := 4

  // The task id a request frame carries: -1 as an unsigned 32-bit number.
  const NO_TASK_ID: nat := 0xFFFF_FFFF

  datatype Option<+A> = None | Some(value: A)

  /** One frame as the protocol sees it: a command, a task id and a payload of fixed size. */
  datatype Frame<+P> = Frame(cmd: nat, id: nat, payload: P)

  /** What the operating system answers to one send call. */
  datatype SendOutcome = Sent | NotReady | Broken

  /** The task ids of a stream of frames, in order. */
  function Ids<P>(fs: seq<Frame<P>>): (r: seq<int>)
    ensures |r| == |fs|
  {
    seq(|fs|, k requires 0 <= k < |fs| => fs[k].id)
  }

  /** A task frame carries the task its id names. */
  ghost predicate Truthful<T>(tasks: seq<T>, f: Frame<T>) {
    f.cmd == CMD_TASK && f.id < |tasks| && f.payload == tasks[f.id]
  }
}
