# A verified model of the computing cluster

A server hands the tasks of one computation to any number of clients over TCP and collects
the results; clients run one task per thread and may vanish at any moment. This project
models the server's task scheduler and connection table, the client's thread table, the
frames between them and the integral program that runs on top, and proves what the system
is for: whatever connects, dies and disconnects, a server that leaves its event loop has
computed exactly the value of every task.

## How it is built

- `Config` holds the constants and the frame. `ServerModel` and `ClientModel` give every table
  operation as a function on a value; `ServerInvariant` proves what the server's tables keep, and
  `ServerEffects` what each operation and each answer of a read leaves behind, field by field.
- `ServerHandle` and `ClientHandle` are the imperative side: classes with the source's arrays,
  counters and loops. Each method is proved equal to its function on the abstract value.
- `Pool` shows that the server's arrays are a pool of pending, owned and finished tasks, each
  table operation being one pool operation. `Dispatch` says exactly what the send loop sends, and
  `DispatchRun` that a write event in a run of the cluster does just that.
- `Framing` is the receive buffer and the byte stream under every chunking. `ByteCluster` is the
  cluster with such streams in place of queues of frames, and the proof that both do the same.
- `Cluster` is the transition system of one server and its clients, built from the same functions.
  `SessionInvariant` and `ClusterInvariant` hold its global invariant and the proof that every
  action keeps it; `Theorems` says what follows for every run, `Steps` exactly what can happen next
  and what it does to phase and history, and `RequestBudget` counts the requests a run receives
  on each connection. `Progress` covers runs without disconnects;
  `GreedyRun` is a concrete one that ends in the server's "greedy client" exit. `Completion` says
  exactly which of them can still be completed, `GreedyExit` exactly which can still end in that
  exit, and `Stranded` exactly when nothing moves any more after a disconnect.
- `Integral` bounds the error of the trapezoid program in exact reals, and `EndToEnd` puts that
  program on the cluster.

Task and result payloads are type parameters, the computation is an arbitrary function, and
the answers of the socket are inputs. A run is any list of actions that are enabled in turn.

## What the code does that one might not expect

- The server exits ("greedy client") whenever the send loop meets more open requests than there
  are pending tasks. This happens with well-behaved clients and no disconnect: a client that
  connects after the last task was handed out is armed for writing and asks for a task.
  `GreedyRun.GreedyExitIsReachable` is such a run; `Dispatch.GreedyExactly` gives the condition
  for one send loop. "A run without disconnects can be completed" is therefore false in general;
  `Completion.CompletableExactly` says when it is true: between handlers, exactly if nothing is
  pending, or some connected client has no more open requests than there are pending tasks, or
  a new client may still take a free cell. With at most sixteen threads per client,
  `Progress.CalmRunsCanFinish` names this exit as the one alternative to completion, and
  `GreedyExit.ExitExactly` says from where it can still happen: with pending tasks two clients
  are enough, or one whose threads do not ask for exactly all of them at once.
- After a broken send the source re-enters its send loop on the connection it has just deleted,
  because the label stands inside the loop (cluster-api/cluster-server.c:853-868). The model
  leaves the loop there. `Dispatch.BrokenSendLeavesNoTask` says what the re-entry would find: a
  true loop guard and an empty cell.
- The accept loop may call accept again after the table has become full. The model keeps this:
  accepting on a full table is an abort, and `ServerInvariant.AcceptInv` says exactly when.
- The finished-computation check looks at the first event of the batch instead of the current
  one (cluster-api/cluster-client.c:928). Its effects, a late notification or an exit of the
  client, are covered by the actions `ClientReady` and `ClientDies`.
- The client's socket stays in blocking mode, since the flag is set with `F_SETFD`
  (cluster-api/cluster-client.c:421). The model allows both a completed and a refused send.
- `drop_resolving_tasks` does not re-arm other connections. After a disconnect tasks may be
  pending while every client waits with all its threads and none is armed: nothing moves any
  more. `Stranded.StuckIsReachable` is such a run, `Stranded.StuckExactly` the exact condition.
- When all tasks are completed the source still handles the rest of the current batch of events
  before it leaves the loop (cluster-api/cluster-server.c:725-875), so a run that has finished
  its work can still end in the greedy exit. The model lets handlers go on until `Finish`.

## Model

| member | source | states |
|---|---|---|
| Theorems.DistributedMap | cluster-api/cluster-server.c:657-681 | In every state any run can reach, with any number of clients dying at any time, every completed task holds the value the computation gives it, and when the event loop is left the result buffer is the sequential map |
| Theorems.UniqueLocation | cluster-api/cluster-server.c:820-847 | A task occurs at most once over the task in hand, the frames to the client, the busy threads and the results under way, exactly as often as the task list holds it, and at no other connection |
| Theorems.ResolvingIsSomewhere | cluster-api/cluster-server.c:625-703 | Conversely every task being resolved is held by a connection that is open |
| Theorems.TokenConservation | cluster-api/cluster-client.c:940-993 | Unsent requests, frames both ways, open requests and busy threads of a client always add up to its number of threads; to the server travel only requests (2), with the number 0xFFFFFFFF, and results (3) for tasks, to the client only tasks (4) |
| Theorems.NoSpareTask | cluster-api/cluster-client.c:791-804 | A task frame that arrives always finds a free thread, so the spare-task exit is dead code |
| Theorems.AlwaysInBounds | cluster-api/cluster-server.c:657-678 | Whatever can happen in a reachable state keeps all array accesses and counters in range, including the task id a result frame carries |
| Theorems.WhyTheServerAborts | cluster-api/cluster-server.c:641-653 | With at most sixteen threads per client only the greedy-client exit (nothing pending) and the full connection table remain; unknown results, unknown commands and missing cells cannot occur |
| RequestBudget.SlotBudget | cluster-api/cluster-server.c:773-784 | In every reachable state occupied cells plus open requests, less the task in hand, are the request frames received on the connection since it was accepted |
| RequestBudget.NoRoomNeedsManyRequests | cluster-api/cluster-server.c:643-653 | The no-room exit happens only on a connection from which more than sixteen request frames were received |
| RequestBudget.ReceiveDemand | cluster-api/cluster-server.c:771-798 | Whatever frame a peer sends, a request raises the connection's sum of occupied cells and open requests by one, any other frame that is handled leaves it, and no other connection is touched |
| RequestBudget.SendDemand | cluster-api/cluster-server.c:820-869 | Every iteration of the send loop keeps that sum, and finds no room only when the sum exceeds sixteen |
| RequestBudget.AcceptDemand | cluster-api/cluster-server.c:425-448 | A connection just accepted starts with that sum at zero |
| Theorems.AssignmentBudget | cluster-api/cluster-server.c:676-703 | Over a whole run assignments equal completed plus resolving plus returned tasks, and exceed the number of tasks by at most sixteen per disconnect |
| Theorems.CompletedIsFinal | cluster-api/cluster-server.c:657-678 | Along any continuation of a run a completed task stays completed with the same result |
| Steps.WhenNobodyIsLeft | cluster-api/cluster-server.c:735-751 | After a lost connection the server leaves for want of workers if and only if it noticed by a hangup and no other session is open, and otherwise goes on; exactly this connection's tasks are pending again |
| Steps.NoOtherWayToLeave | cluster-api/cluster-server.c:745-749 | No other action ends the run for want of workers |
| Steps.WhatMayHappen | cluster-api/cluster-server.c:725-872 | In an invariant state the stated conditions are exactly when each action is possible: any socket answer in a send loop, any loss, arrival or fresh client between handlers, a death or a send of a client at any time |
| Steps.WhatMayProceed | cluster-api/cluster-server.c:812-820 | The server turns exactly to an armed connection that has asked; a thread finishes exactly from a busy entry and is noticed exactly once it has |
| Steps.DyingIsSilent | cluster-api/cluster-client.c:560-569 | A client that dies changes nothing else: its connection and frames stay until the server notices, and it takes no further step |
| Steps.HistoryExact | cluster-api/cluster-server.c:820-856 | The history counts one assignment exactly when the send loop takes a new task, and one disconnect exactly when a connection is closed |
| Theorems.ReachedTables | cluster-api/cluster-server.c:609-611 | In every reachable state the counters are the true counts, nothing pending lies below the hint, the client counter is the number of cells in use and accepting is on exactly while a cell is free |
| Theorems.RunKeeps | cluster-api/cluster-server.c:716-876 | The global invariant holds after every run, by induction over its actions |
| ClusterInvariant.StepKeeps | cluster-api/cluster-server.c:725-872 | Every single action of server, client or network keeps the global invariant |
| ClusterInvariant.TooManyThreads | cluster-api/cluster-server.c:643-653 | The task list is full when a task is taken only for a client with more than sixteen threads |
| SessionInvariant.ResultIsExpected | cluster-api/cluster-server.c:664-674 | A result at the head of the stream is for a task this connection holds and carries the right value |
| SessionInvariant.ClientReceiveLive | cluster-api/cluster-client.c:906-913 | Starting a computation for a received task succeeds and keeps locations, tokens, payloads and write interest |
| Progress.NoDeadlock | cluster-api/cluster-server.c:800-804 | Without disconnects, while tasks are open and a client is connected, some action that moves the computation forward is enabled |
| Progress.RunsAreBounded | cluster-api/cluster-server.c:820-869 | No run of such actions is longer than a measure of the state it starts in |
| Progress.CalmRunsCanFinish | cluster-api/cluster-server.c:874-875 | Any disconnect-free run with a client connected can be continued, within that bound, to a state with all tasks completed or to an abort of the server, which with at most sixteen threads per client is the greedy-client exit |
| Completion.CompletableExactly | cluster-api/cluster-server.c:716-876 | With at most sixteen threads per client, a disconnect-free run that is between handlers can be carried on to the normal end of the event loop if and only if nothing is pending, or some connected client has no more open requests than there are pending tasks, or new clients may come and a cell is free; the results are then the sequential map |
| Completion.FinishExactly | cluster-api/cluster-server.c:820-875 | The same equivalence for every state of a disconnect-free run, where inside a send loop the condition is that its connection can be served |
| Completion.Finishing | cluster-api/cluster-server.c:820-875 | From such a state actions of the connected clients and the server alone lead to the normal end, within the measure of the state |
| GreedyExit.ExitExactly | cluster-api/cluster-server.c:800-833 | With at most sixteen threads per client, a disconnect-free run that is between handlers can still end in the greedy-client exit if and only if nothing is pending and a connection is armed, or tasks are pending and there are two clients, or one with at least two threads that does not ask with all of them for exactly the pending tasks, or a newcomer may take a free cell |
| GreedyExit.Ask | cluster-api/cluster-client.c:925-1001 | A client with a thread that is not asking can be let go on until the server has read exactly one more request from it, which arms it if there is work, and nobody else is affected |
| Stranded.StuckExactly | cluster-api/cluster-server.c:683-703 | With all connected clients alive, no action that moves the computation forward is enabled if and only if every client waits with all its threads and none is armed; every task is then pending or completed |
| Stranded.StuckIsReachable | cluster-api/cluster-server.c:683-703 | Two tasks, two clients with one thread each, one disconnect: a run after which a live client waits, a task is pending, and nothing moves |
| GreedyRun.GreedyExitIsReachable | cluster-api/cluster-server.c:641 | One task, two clients with one thread each, no disconnect: a run that ends in the greedy-client exit with the task not completed |
| Dispatch.DispatchExact | cluster-api/cluster-server.c:820-869 | For every pattern of socket answers without a broken one the loop sends the task in hand and then the least pending tasks in ascending order, one per request, with true payloads, and ends in the greedy exit exactly when requests exceed what is available |
| Dispatch.GreedyExactly | cluster-api/cluster-server.c:820-869 | Between handlers that exit happens exactly when the connection has more open requests than there are pending tasks |
| DispatchRun.LoopOnCluster | cluster-api/cluster-server.c:820-869 | In any reachable state of the cluster one action per socket answer ends with the server, the frames on the wire and the exit of the loop, for every finite list of answers |
| DispatchRun.IterationAnswers | cluster-api/cluster-server.c:846-861 | Those actions are the given answers in order, and successful sends once they are used up |
| DispatchRun.WriteEvent | cluster-api/cluster-server.c:812-869 | A write event at a client with at most sixteen threads puts the least pending tasks on its stream in ascending order, one per open request, and the server exits exactly when requests exceed pending tasks |
| Dispatch.RetriesDoNotMatter | cluster-api/cluster-server.c:857-861 | Any two patterns of refused sends lead to the same tasks in the same order and the same end |
| Dispatch.RefusedSendKeepsTask | cluster-api/cluster-server.c:857-861 | After a refused send the first available task stays in hand, further refusals change nothing, and the next successful send sends that very task |
| Dispatch.BrokenExact | cluster-api/cluster-server.c:849-856 | A broken send ends the loop exactly if requests and tasks last until then; what was sent before are the first available tasks, and the connection is closed |
| Dispatch.BrokenSendLeavesNoTask | cluster-api/cluster-server.c:849-856 | After a broken send the guard of the loop still holds and the cell in hand is empty |
| Dispatch.PendingMeaning | cluster-api/cluster-server.c:627-639 | The list the loop works through is ascending and contains exactly the pending tasks |
| Pool.GetTaskSimulates | cluster-api/cluster-server.c:625-654 | Getting a task moves the least pending task to the connection and changes nothing else in the pool |
| Pool.PushSimulates | cluster-api/cluster-server.c:657-681 | A result is accepted exactly for a task this connection owns, and moves it from owned to done with that result |
| Pool.DisconnectSimulates | cluster-api/cluster-server.c:683-703 | A disconnect returns all tasks the connection owns, and no others, to the pending set |
| Pool.AcceptSimulates | cluster-api/cluster-server.c:425-448 | Accepting a connection leaves the pool as it is |
| Pool.PoolPartition | cluster-api/cluster-server.c:602-611 | Pending, owned and done partition the tasks, and the two counters are the sizes of the pending and the done set |
| Pool.OwnershipBijection | cluster-api/cluster-server.c:644-702 | A task is being resolved exactly when one cell of one open connection holds it |
| ServerInvariant.HintedScanIsFullScan | cluster-api/cluster-server.c:627-641 | The scan from the hint finds what a scan from the start finds, and fails exactly when nothing is pending |
| ServerInvariant.GetTaskOutcome | cluster-api/cluster-server.c:641-653 | The greedy abort happens exactly with nothing pending, the no-room abort exactly with something pending and sixteen cells in use |
| ServerInvariant.DropExact | cluster-api/cluster-server.c:683-703 | Exactly the tasks of the list become pending, every cell becomes -1, counter and hint move accordingly, and everything else stays |
| ServerEffects.GetTaskEffect | cluster-api/cluster-server.c:625-654 | The least pending task of all goes into the first of sixteen cells that holds -1, the hint moves right behind it, and nothing else changes |
| ServerEffects.NoRoomEffect | cluster-api/cluster-server.c:636-653 | With all sixteen cells in use the least pending task is marked all the same before the exit |
| ServerEffects.PushEffect | cluster-api/cluster-server.c:657-681 | A result is copied in any case; it is accepted exactly if a cell holds the task, which empties the cell and completes the task |
| ServerEffects.AcceptEffect | cluster-api/cluster-server.c:425-448 | The first cell not in use becomes an armed connection with sixteen empty cells and nothing asked or in hand; accepting pauses exactly when no cell is left |
| ServerEffects.DeleteEffect | cluster-api/cluster-server.c:472-499 | The cell is free, one client less, accepting on again, everything else stale |
| ServerEffects.ReadAnswers | cluster-api/cluster-server.c:771-804 | By command byte: 0 returns exactly this connection's tasks and frees its cell, 1 changes nothing, 2 counts a request and arms while tasks are pending, 3 takes the result and counts a request or stops the server, any other stops it |
| ServerEffects.ReadOutcomes | cluster-api/cluster-server.c:509-547 | A read that would block or is partial leaves the server as it was, one that finds the peer gone returns exactly its tasks and frees its cell |
| ServerInvariant.DisconnectInv | cluster-api/cluster-server.c:472-499 | Dropping and deleting an open connection keeps the counters, the ownership of tasks, the hint and the connection table sound |
| ServerInvariant.AcceptInv | cluster-api/cluster-server.c:425-448 | The search for a free cell fails exactly on a full table, that is exactly while accepting is paused; otherwise the tables stay sound |
| ServerHandle.Handle.constructor | cluster-api/cluster-server.c:593-615 | The initialisation loops set up empty tables in which the invariant holds |
| ServerHandle.Handle.GetTaskToSend | cluster-api/cluster-server.c:625-654 | The two loops over the arrays carry out the abstract operation with all three outcomes |
| ServerHandle.Handle.PushReturnValue | cluster-api/cluster-server.c:657-681 | The update in place carries out the abstract operation, also when the cell is missing after the copy |
| ServerHandle.Handle.DropResolvingTasks | cluster-api/cluster-server.c:683-703 | The loop over the list reaches the closed form of the drop |
| ServerHandle.Handle.AcceptConnection | cluster-api/cluster-server.c:425-448 | The search and the counters carry out the abstract accept |
| ServerHandle.Handle.DeleteConnection | cluster-api/cluster-server.c:472-499 | The cell is freed, the counter lowered and accepting resumed after a full table |
| ServerHandle.Handle.HandleReceive | cluster-api/cluster-server.c:771-804 | The receive switch on the arrays: what each command byte 0 to 3 does, and that every other one stops the server with the tables untouched |
| ServerHandle.Handle.HandleHangup | cluster-api/cluster-server.c:742-749 | The hangup branch returns exactly this connection's tasks, frees its cell, and reports whether any connection is open |
| ServerHandle.Handle.HandleWritable | cluster-api/cluster-server.c:820-869 | The send loop on the arrays sends the same frames and ends the same way as the loop that DispatchExact is about, and keeps the tables sound unless the server exits |
| ClientModel.FlushExact | cluster-api/cluster-client.c:937-1001 | A write event sends the longest affordable prefix of results and requests, keeps the rest in order, and stays armed exactly when something is left |
| ClientModel.FlushIsSends | cluster-api/cluster-client.c:940-996 | A write event is as many single sends as the socket accepts |
| ClientModel.ResultsFirst | cluster-api/cluster-client.c:937-993 | The next frame is the result of the first entry that waits, which frees it, and a request only when none waits |
| ClientModel.HandlersKeepArmed | cluster-api/cluster-client.c:925-1001 | Every handler leaves write interest set exactly when a result or a request waits, so no result is stranded |
| ClientHandle.Handle.constructor | cluster-api/cluster-client.c:650-720 | The table starts blank, with one request per thread to send |
| ClientHandle.Handle.Start | cluster-api/cluster-client.c:789-809 | The search takes the first empty entry and fails only when there is none |
| ClientHandle.Handle.FinishComputation | cluster-api/cluster-client.c:769-787 | The thread stores the computed value in its entry and raises its event |
| ClientHandle.Handle.MarkAsReady | cluster-api/cluster-client.c:844-854 | The entry waits to be sent and write events are armed |
| ClientHandle.Handle.HandleWritable | cluster-api/cluster-client.c:937-1001 | The two send loops on the table send the frames FlushExact describes |
| ByteCluster.ByteStep | cluster-api/cluster-server.c:501-586 | Every action of the cluster on byte streams, with reads of any size, is within bounds and is one action of the frame cluster or none, each link still standing for its queue |
| ByteCluster.WhatMayBeRead | cluster-api/cluster-server.c:506-510 | A read may take any number of bytes that have arrived, up to the end of the frame |
| ByteCluster.FrameStep | cluster-api/cluster-client.c:544-623 | Conversely every action of the frame cluster is one action on the byte streams |
| ByteCluster.ByteMap | cluster-api/cluster-server.c:501-586 | However the streams are cut, whatever connects, dies and disconnects, completed tasks have the right value and a server that left its event loop has the sequential map |
| Framing.EveryChunking | cluster-api/cluster-server.c:501-548 | For every split of a stream into pieces the decoded frames are the first frames sent and the buffer holds what arrived of the next |
| Framing.WholeStream | cluster-api/cluster-client.c:544-584 | Once all bytes are in, all frames are decoded and the buffer is empty |
| Framing.NothingLost | cluster-api/cluster-server.c:504-547 | For arbitrary bytes, decoded frames and residue together are exactly what arrived |
| Framing.AnyCutFits | cluster-api/cluster-server.c:506-541 | The chunkings admitted are exactly those into pieces that are not empty and lie within one frame |
| Framing.StreamDetermined | cluster-api/cluster-client.c:571-578 | A stream of frames can be read in one way only |
| Framing.ReadIsFifo | cluster-api/cluster-client.c:546-583 | Reading any piece keeps the queue of frames or takes its head |
| Framing.SendIsFifo | cluster-api/cluster-server.c:559-569 | Sending a frame appends it to the queue |
| Framing.FrameRoundTrip | cluster-api/cluster-server.c:539-542 | Decoding undoes encoding and encoding undoes decoding |
| Framing.WireLayout | cluster-api/cluster-server.c:539-569 | On the wire a frame is one byte of command, the number in four bytes with the highest first, and the payload |
| Framing.NetworkOrder | cluster-api/cluster-server.c:832 | Appending a last byte to the number appends it to its four bytes, so the highest byte comes first |
| Framing.ByteWeights | cluster-api/cluster-client.c:578 | Read back, the four bytes weigh 2^24, 2^16, 2^8 and 1 in this order |
| Framing.BigEndianRoundTrip | cluster-api/cluster-server.c:542 | Task ids survive the wire in both directions for every 32-bit value |
| Framing.Reader.Read | cluster-api/cluster-server.c:501-548 | The buffer holds the residue after every answer of recv, a complete frame is reported with its header, its payload stays in the buffer |
| Integral.IntegralThread | integral-computation/computation-client.c:79-86 | The loop ends for every positive step and returns the quadrature value |
| Integral.IntegralBound | integral-computation/computation-client.c:79-86 | The value lies between the integral and the integral plus trapezoid error plus one cut-off trapezoid, for every step and every interval |
| Integral.IntegralExact | integral-computation/computation-client.c:79-86 | When the step divides the interval the value is the integral plus the trapezoid error |
| Integral.PointByPoint | integral-computation/computation-client.c:79-86 | The value is the values at all points below the end in full and at both ends by half, weighted with the step |
| Integral.LastStep | integral-computation/computation-client.c:80 | Every interval and positive step have a last point below the end |
| Integral.BoundsInNumbers | integral-computation/computation-client.c:51-86 | For every interval and positive step the value lies between (b^3 - a^3)/3 and that plus (b - a)d^2/6 plus d times the larger of a^2 and b^2 |
| Integral.FillTasks | integral-computation/computation-server.c:41-46 | The loop fills the buffer with parts that all have the n-th of the interval as width, join end to end, and run from a to b |
| Integral.EqualParts | integral-computation/computation-server.c:41-46 | The n parts are equally wide, join end to end and run from a to b |
| Integral.TilesCover | integral-computation/computation-server.c:41-46 | For a <= b the parts also never step back and lie within the interval |
| Integral.AddResults | integral-computation/computation-server.c:67-72 | The loop returns the sum of all results |
| Integral.TotalBound | integral-computation/computation-server.c:67-72 | The sum over n tasks lies between the integral and the integral plus trapezoid error plus n cut-off trapezoids |
| Integral.TotalInNumbers | integral-computation/computation-server.c:67-72 | Right of zero the sum over n tasks lies between (b^3 - a^3)/3 and that plus (b - a)d^2/6 plus n d b^2 |
| EndToEnd.IntegralOnCluster | integral-computation/computation-server.c:41-72 | Whatever the run on the cluster was, the collected results add up to the integral within that bound |

## Left out

- Sockets, epoll, timers, threads and processor affinity: their answers are inputs of the model or actions of the environment, and write interest and listening are flags.
- Discovery of the server by broadcast: connecting is one action, which joins the client's connect with the server's accept.
- Events for a descriptor number reused within one batch: a session is identified by its cell.
- Partial sends, which the source turns into an exit, and the 256-byte send buffer (the sizes are taken to fit, for the client with the result size it copies).
- Task counts of 2^31 and more, where the source's `int` index and the 32-bit sentinel would wrap: task indices are natural numbers here.
- Allocation, padding, pointer arithmetic and the free routines.
- Rounding of doubles and the byte swapping of payloads: the integral is over exact reals, and protocol payloads are opaque values.
- Misbehaving peers: clients follow their event loop; only the server's receive switch is modelled for every command byte.
- Progress after a disconnect: besides safety only the exact condition for a standstill is proved, as no other connection is armed again.
- The end of a batch of events: between completion and `Finish` the model allows any number of handlers, the source those of the current batch.
- ServerHandle.Handle.HandleWritable: the socket's answers are a finite list after which sends succeed; a socket that refuses for ever keeps the source's loop spinning.
- EndToEnd.IntegralOnCluster: a step that is not positive, for which the source's loop does not end, is given the value zero and excluded from the bound.
