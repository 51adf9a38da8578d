# Four small systems and what they guarantee

This project models the four systems programs of the repository and proves what they guarantee over every
run:

- **HW4, the thread pool** (`HW4/my_pool.c`): workers and a main thread as an interleaving transition system
  with a mutex, a condition variable, the queue and the `finish` flag, one step per access to shared state;
  and the linked queue on the heap, kept in step with that system.
- **HW2, the service tree** (`HW2/service.c`): spawn, kill and exchange as message passing along the edges of
  an unbounded tree, proved to do what three simple functions on trees say. The last phase of exchange, in
  which all services run concurrently, is a network of processes, pipes and FIFOs in any interleaving.
- **HW3, user-level threads** (`HW3/scheduler.c`, `HW3/threadtools.h`, `HW3/threads.c`): the scheduler with its
  two arrays, the lock and the three kinds of threads, for any set of threads and every signal schedule.
- **HW1, the bulletin board** (`HW1/server.c`): the circular slot allocator, for any number of server processes
  that share the record file and its record locks, and for any number of records.

`dafny verify dfyconfig.toml` checks the whole project.

## Files

| file | content |
|---|---|
| `ThreadPool.dfy` | the pool's states and steps |
| `ThreadPoolSafety.dfy` | mutual exclusion, FIFO order, every job exactly once |
| `ThreadPoolLiveness.dfy` | finite runs, and when a run can get stuck |
| `TaskQueue.dfy`, `PoolHeap.dfy` | the linked queue, and the pool running on it |
| `ServiceTree.dfy` | trees, preorder, paths, replacing and cutting subtrees |
| `ServiceCommands.dfy` | spawn, kill, the counting traversal and the find pass, service by service |
| `Rendezvous.dfy` | the meeting of two services over two FIFOs |
| `Exchange.dfy`, `ExchangeProofs.dfy`, `ExchangeTheorems.dfy` | the concurrent phase of exchange: protocol, invariant, results |
| `ServiceRuns.dfy` | whole commands, and runs of commands with what they print |
| `ServiceLaws.dfy` | what commands do place by place, and what each printed line says about the trees before and after |
| `UserThreads.dfy` | the scheduler and the threads as functions |
| `UserThreadsSafety.dfy`, `UserThreadsTheorems.dfy` | invariants of every schedule; partition, serializability, termination, fairness |
| `Scheduler.dfy` | the scheduler and the threads on their arrays, updated in place |
| `BulletinBoard.dfy` | the servers' steps, exclusion, and the ring of sequential posts |
| `BulletinProbes.dfy` | the servers again, with one step for every single lock operation |
| `BulletinServer.dfy` | one server process updating its table and the shared file in place |

## Assumptions

- Shared memory is sequentially consistent, tasks of the pool terminate and add no tasks, and all calls of
  `tpool_add` come before `tpool_wait`. Spurious wakeups may happen at any time and are never relied on.
- Each step of a pool thread is one access to shared state; a section under the mutex is cut at every line
  that other threads can notice.
- Signals are delivered only inside `thread_yield`, because they are blocked everywhere else
  (`HW3/main.c:48`, `HW3/threadtools.h:60-66`). The environment decides at each yield.
- Clients of the board send back the slot they were granted (`HW1/client.c:113-125`).
- Numbers are unbounded: fibonacci, factorial and the balance do not overflow.

## Where the code does not do what one might expect

- `tpool_wait` stores `finish` without the mutex (`HW4/my_pool.c:59`). A lone worker can test it, then miss the
  only broadcast, and sleep for ever. `StuckOnlyWithOneWorker` shows that some run gets stuck if and only if
  the pool has exactly one worker, whatever the number of tasks.
- With no workers `tpool_wait` returns and leaves every task in the queue. `WaitMeansDoneIffWorkers` shows that
  its return means that all tasks were executed if and only if there is a worker or no task.
- The manager prints "have exchanged" and goes on when its own replies are in, while other services may still
  have to reset their registers (`HW2/service.c:453`, `HW2/service.c:520`). `ManagerReturnsAfterSwap` shows that
  everything else is done by then, and `LateResetIffDeep` that such a late reset can happen if and only if one of
  the two services is more than one level below the manager. A service's pending reset comes before its next read, so it finds its
  registers at -1 whenever it handles the next message.
- `find_available` releases the record lock it has probed, and `!post` takes it again without looking at the
  result (`HW1/server.c:86-88`, `HW1/server.c:184`). `ExclusiveIffLocksSucceed` shows that two servers never
  promise the same slot in a run if and only if none of these unchecked locks fails; whole requests are safe
  (`WholeRequestsAreExclusive`), and over all interleavings a lone server is the only safe number
  (`ExclusiveIffLoneServer`).

- A search and a pull hold the record lock of a slot for a moment (`HW1/server.c:86-88`, `HW1/server.c:216-220`),
  and another server then takes the slot for promised. `FalseFullIffTwoServers` shows that "!full" can be answered
  although fewer than N posts are unfinished if and only if there are at least two servers.
- A service knows the manager by its name (`HW2/service.c:21-23`), and a new service of that name does not report
  to its parent (`HW2/service.c:270`). Spawning one under an existing service leaves the manager waiting for ever;
  no other command does (`SpawnCommand`, `Handle`).

## Model

| member | source | states |
|---|---|---|
| ThreadPoolSafety.WokenIffBroadcast | HW4/my_pool.c:23-60 | each of the four broadcasts wakes every sleeping worker, and nothing else but a spurious wakeup wakes one |
| ThreadPoolSafety.AwakeStep | HW4/my_pool.c:13-53 | every step keeps: while a task is queued and `tpool_add` has broadcast, no worker sleeps or is about to |
| ThreadPoolSafety.ControlStep | HW4/my_pool.c:10-63 | every step of every thread keeps mutual exclusion, the order of `tpool_wait`, that workers leave only a finished and drained pool, and that after the final broadcast at most one worker dozes while none has made its last broadcast |
| ThreadPoolSafety.FifoStep | HW4/my_pool.c:16-55 | every step keeps: jobs popped so far, followed by the queue, are the jobs added, in order |
| ThreadPoolSafety.WorkerJobStep | HW4/my_pool.c:16-23 | every worker step conserves each job: popped = executed + waiting to be, executed = freed + waiting to be |
| ThreadPoolSafety.InvAlongRun | HW4/my_pool.c:7-63 | the whole invariant holds along every run |
| ThreadPoolSafety.ReachableInv | HW4/my_pool.c:72-84 | it holds in every state reachable from `tpool_init` with any number of workers and tasks |
| ThreadPoolSafety.MutualExclusion | HW4/my_pool.c:12-54 | in every reachable state at most one thread is in a critical section |
| ThreadPoolSafety.NoLostWakeup | HW4/my_pool.c:37-54 | in every reachable state with a queued task, once `tpool_add` has broadcast, no worker sleeps or is about to |
| ThreadPoolSafety.QueueIsFifo | HW4/my_pool.c:16-52 | in every reachable state the queue is FIFO |
| ThreadPoolSafety.NeverTwice | HW4/my_pool.c:18-22 | in every reachable state a job has been executed at most once, only after it was added, and freed at most as often as executed |
| ThreadPoolSafety.WaitReturnsAfterAllJobs | HW4/my_pool.c:57-63 | with at least one worker, when `tpool_wait` returns all workers have exited, the queue is empty, and each task was executed exactly once and freed exactly once |
| ThreadPoolSafety.WaitWithoutWorkers | HW4/my_pool.c:61-63 | with no worker, whenever `tpool_wait` has returned nothing was executed and every task is still queued |
| ThreadPoolLiveness.SumsOfWake | HW4/my_pool.c:23-28 | a broadcast gives the workers at most three steps each before the shutdown, and none after it |
| ThreadPoolLiveness.MainMeasure | HW4/my_pool.c:34-63 | every step of the main thread lowers the measure |
| ThreadPoolLiveness.WorkerMeasure | HW4/my_pool.c:10-31 | every step of a worker lowers the measure |
| ThreadPoolLiveness.RunLength | HW4/my_pool.c:7-63 | a run is no longer than the measure it uses up, plus four per spurious wakeup before the shutdown |
| ThreadPoolLiveness.RunsAreBounded | HW4/my_pool.c:7-63 | every run of n workers and k tasks is finite, with an explicit bound in n, k and the early spurious wakeups |
| ThreadPoolLiveness.ShutdownIsBounded | HW4/my_pool.c:57-63 | once `finish` is set every run is finite, whatever spurious wakeups happen |
| ThreadPoolLiveness.StuckMeansLoneSleeper | HW4/my_pool.c:13-14 | a state in which no thread can move before `tpool_wait` has returned has exactly one worker, asleep after `finish` was set |
| ThreadPoolLiveness.MissedWakeup | HW4/my_pool.c:57-63 | the interleaving in which a lone worker misses the broadcast between lines 13 and 14 |
| ThreadPoolLiveness.StuckOnlyWithOneWorker | HW4/my_pool.c:57-63 | for all n and k: some interleaving gets stuck if and only if n is 1 |
| ThreadPoolLiveness.PoolCompletes | HW4/my_pool.c:57-63 | with two or more workers, every run that cannot go on has returned from `tpool_wait` with every task executed and freed exactly once |
| ThreadPoolLiveness.RestMeansDone | HW4/my_pool.c:10-31 | with at least one worker, when no worker can move although the mutex is left to them, every task added so far was executed and freed exactly once |
| ThreadPoolLiveness.WorkersAloneGetDone | HW4/my_pool.c:10-31 | from every reachable state with main outside the mutex, any moves of the workers alone, without main and without spurious wakeups, are bounded in number and end with every task added so far executed and freed exactly once |
| ThreadPoolLiveness.WorkersAloneCanGetDone | HW4/my_pool.c:10-31 | and such moves to that point exist |
| ThreadPoolLiveness.WaitReturnsWithoutWorkers | HW4/my_pool.c:57-63 | for any number of tasks, the run in which `tpool_wait` returns although there is no worker |
| ThreadPoolLiveness.WaitMeansDoneIffWorkers | HW4/my_pool.c:57-63 | for all n and k: in every run the return of `tpool_wait` means that each task was executed once, if and only if there is a worker or no task |
| TaskQueue.Queue.constructor | HW4/my_pool.c:79 | the queue starts empty |
| TaskQueue.Queue.Add | HW4/my_pool.c:37-52 | the new task is appended to the contents |
| TaskQueue.Queue.Link | HW4/my_pool.c:41-52 | all three branches mean append, and follow only nodes that have not been freed |
| TaskQueue.Queue.Take | HW4/my_pool.c:16-19 | the first task leaves the queue, or there is none; the task taken has not been freed |
| TaskQueue.Queue.Free | HW4/my_pool.c:22 | a taken task is freed once, and the list stays valid |
| TaskQueue.StaleTail | HW4/my_pool.c:41-52 | after the only task is taken and freed `queue_tail` dangles, and the next add still yields the right queue |
| PoolHeap.HeldElsewhere | HW4/my_pool.c:12-31 | steps that do not touch the queue leave every worker with its own, unfreed task |
| PoolHeap.QueueDoesNotMatter | HW4/my_pool.c:12-31 | only lines 13, 16-19 and 37-52 depend on the queue |
| PoolHeap.Pool.TestQueue | HW4/my_pool.c:13-14 | the test of `queue_head` against NULL decides as the test of the abstract queue does |
| PoolHeap.Pool.TakeJob | HW4/my_pool.c:16-19 | taking the head node is the queue step of the transition system |
| PoolHeap.Pool.FreeJob | HW4/my_pool.c:22 | freeing on the heap: the worker's task had not been freed before |
| PoolHeap.Pool.AddTask | HW4/my_pool.c:37-52 | adding on the heap is the append of the transition system |
| PoolHeap.Pool.OtherStep | HW4/my_pool.c:12-31 | a step that does not look at the queue is carried out without it, and line 21 follows only an unfreed task |
| PoolHeap.Pool.Step | HW4/my_pool.c:7-63 | for every move of every thread, the pool on linked nodes does exactly the step of the transition system |
| PoolHeap.Execute | HW4/my_pool.c:7-84 | every run of the transition system can be carried out on the linked nodes, and ends in the same state |
| ServiceTree.PreorderOfPut | HW2/service.c:305-315 | replacing a subtree changes the preorder in just that place |
| ServiceTree.PreorderOfCut | HW2/service.c:337-354 | removing a subtree removes exactly its part of the preorder and keeps the order of the rest |
| ServiceTree.PutBack | HW2/service.c:305-315 | taking a subtree out and putting it back is the identity; the preorder splits into before, subtree and after |
| ServiceTree.LocateIsFirst | HW2/service.c:337-369 | the service found is the first of its name in preorder |
| ServiceTree.UpToIsBefore | HW2/service.c:282-283 | the preorder prefix ending at a name is what lies before its first service, and that service |
| ServiceCommands.FoundInChild | HW2/service.c:305-315 | a search that goes child by child finds the first match in preorder |
| ServiceCommands.Spawn | HW2/service.c:293-322 | the protocol adds the new service as last child of the first service of that name, or changes nothing exactly when there is none; no reply ever comes exactly when the new service bears the manager's name; the services that report are the preorder prefix ending at the target |
| ServiceCommands.Suicide | HW2/service.c:125-148 | the count sent up is the size of the subtree |
| ServiceCommands.RemoveChild | HW2/service.c:350-352 | the shift loop removes child i and keeps the order of the others |
| ServiceCommands.Kill | HW2/service.c:330-376 | a service that is itself the target dies with its subtree; otherwise the protocol removes the subtree of the first match and carries its size up any number of levels, or changes nothing exactly when there is no match; the services that report are the preorder prefix ending at the target |
| ServiceCommands.WalkNextChild | HW2/service.c:171-178 | carrying the counter from child to child is one walk over the preorder |
| ServiceCommands.Traverse | HW2/service.c:150-182 | the traversal with the counter threaded through messages is the walk over the preorder that stops at the second of the named services |
| ServiceCommands.WalkEndsAtSecond | HW2/service.c:157-168 | with distinct names the services reached are the preorder prefix ending at the later of the two |
| ServiceCommands.Finds | HW2/service.c:184-223 | the find pass succeeds exactly when the target exists, and then marks the route to the first match and nothing else |
| Rendezvous.TurnAKeepsMeeting | HW2/service.c:231-238 | each operation of the first-named service keeps the state of the meeting in order |
| Rendezvous.TurnBKeepsMeeting | HW2/service.c:244-249 | each operation of the second-named service does too |
| Rendezvous.NeverBothWait | HW2/service.c:231-249 | while the meeting is not over, one of the two services can go on |
| Rendezvous.ReportsInOrder | HW2/service.c:234-248 | the second-named service never reports before the first, and both report the other's old secret |
| Exchange.ProgramForm | HW2/service.c:415-520 | all cases of manager and service have one form: forward to each next service on the route once, meet, collect one reply for each, reply, reset |
| ExchangeProofs.StepHasEffect | HW2/service.c:415-520 | what each step of a service does to its own state, its pipes and the FIFOs |
| ExchangeProofs.NodeStep | HW2/service.c:465-521 | every step keeps every service untouched off the route, and waiting, at work or done on it |
| ExchangeProofs.EdgeStep | HW2/service.c:465-521 | every step keeps every pipe in balance: one message down, one reply up |
| ExchangeProofs.MeetStep | HW2/service.c:225-253 | every step keeps the meeting at the FIFOs in order |
| ExchangeTheorems.InvStep | HW2/service.c:388-521 | every step of any service keeps the invariant of the exchange |
| ExchangeTheorems.StartInv | HW2/service.c:414-436 | it holds when the manager sends `start_exchange` |
| ExchangeTheorems.MessageCanTravel | HW2/service.c:465-518 | while a service on the route has not had the message, it or a service above it can move |
| ExchangeTheorems.SomebodyCanWork | HW2/service.c:225-253 | while any service on the route has not replied, some service can make a step other than its reset |
| ExchangeTheorems.NobodyIsStuck | HW2/service.c:225-253 | while any service on the route is unfinished, some service can move |
| ExchangeTheorems.RunLength | HW2/service.c:465-521 | every interleaving is no longer than the steps left at its start |
| ExchangeTheorems.StillMeansSwapped | HW2/service.c:388-521 | when nobody can move the exchange is complete |
| ExchangeTheorems.ExchangeCompletes | HW2/service.c:388-521 | in every interleaving that has come to rest: each service on the route handled the message exactly once and no other did, pipes and FIFOs are empty, registers are -1, exactly the two secrets are swapped, and the reports came in order |
| ExchangeTheorems.AllThrough | HW2/service.c:465-518 | when the manager has read its last reply, every service on the route has replied and its pipes are empty |
| ExchangeTheorems.ManagerReturnsAfterSwap | HW2/service.c:437-454 | in every interleaving, when the manager is about to print that the secrets have been exchanged: each service on the route handled the message once and replied, pipes and FIFOs are empty, exactly the two secrets are swapped, both reports are out in order, and no service can do anything but its reset of line 520 |
| ExchangeTheorems.RestMeansReturn | HW2/service.c:451-454 | an interleaving that cannot go on has come past that point |
| ExchangeTheorems.LazyRun | HW2/service.c:415-521 | from every state in which no service has reset, a run in which none does before the manager has its last reply |
| ExchangeTheorems.LateResetIffDeep | HW2/service.c:451-454 | some interleaving leaves a service with registers set when the manager prints, if and only if one of the two services is more than one level below the manager |
| ExchangeTheorems.ExchangeTerminates | HW2/service.c:388-521 | every interleaving is finite, with a bound fixed at the start |
| ExchangeTheorems.ExchangeIsOrderly | HW2/service.c:465-521 | in every state of every interleaving no pipe holds two messages, nobody gets the message twice or replies before getting it, and reports are in order |
| ServiceRuns.NamesIdentify | HW2/service.c:193 | with distinct names, a name belongs to one place of the tree |
| ServiceRuns.MarkedAt | HW2/service.c:200-214 | a find pass changes the registers of exactly the proper ancestors of the target |
| ServiceRuns.RegistersAfterFinds | HW2/service.c:184-223 | after the find passes a register is set exactly at the proper ancestors of its target and names the child leading there |
| ServiceRuns.FindsPrepare | HW2/service.c:415-436 | the find passes leave what the concurrent phase relies on |
| ServiceRuns.CollectedIsExchanged | HW2/service.c:225-253 | the secrets of the processes, and the registers with which they read their next message, make up the tree with exactly two secrets swapped |
| ServiceRuns.EveryInterleavingExchanges | HW2/service.c:388-521 | for every tree with distinct names and every two different services, in every interleaving in which the manager has read its last reply: the tree has exactly the two secrets swapped and registers at -1 for the next message, all pipes are empty, the reports have come in order, and only resets are left |
| ServiceRuns.LateResetIffDeepInTree | HW2/service.c:415-521 | the same for every tree with distinct names and every two different services in it, after the find passes |
| ServiceRuns.StartExchange | HW2/service.c:415-450 | whichever enabled service moves at each turn, the manager gets its replies, and at that moment the two secrets are swapped, everything else is unchanged and both reports are out in order |
| ServiceRuns.ExchangeCommand | HW2/service.c:388-464 | the whole command, up to the manager's last reply: two secrets swapped, everything else unchanged, both reports out, and the preorder prefix ending at the second of the two services has reported the command |
| ServiceRuns.SpawnCommand | HW2/service.c:293-329 | what the manager prints for spawn is right, although it decides by the last reply it has read; it waits for ever exactly when an existing service spawns one with the manager's name |
| ServiceRuns.KillCommand | HW2/service.c:330-387 | what the manager prints for kill: the size of the removed subtree minus one, or "doesn't exist" exactly when no service has the name; sizes add up |
| ServiceRuns.PreorderOfSpawned | HW2/service.c:295-301 | a spawn adds one name, right behind the subtree it joins |
| ServiceLaws.SpawnedAt | HW2/service.c:103-111 | the new service is the last child of the first service of that name; every other service is where it was, with name, secret, registers and children, and no other place is new |
| ServiceLaws.CutAt | HW2/service.c:350-352 | after a kill every service outside the killed subtree has its name, secret, registers and children, one child less for the parent, and later siblings moved up by one place |
| ServiceLaws.CutHasNoMore | HW2/service.c:350-352 | and there is no other service |
| ServiceLaws.ExchangedAt | HW2/service.c:225-253 | after an exchange each of the two services has the other's secret, and nothing else differs anywhere |
| ServiceLaws.KilledLine | HW2/service.c:377-384 | "x and d child services are killed" is printed exactly when x existed and d + 1 services are gone |
| ServiceLaws.AcquiredLine | HW2/service.c:231-250 | "x has acquired a new secret from y" is printed with v exactly when the two are exchanged and v was the secret of y, and v is the secret of x afterwards |
| ServiceLaws.SpawnedLine | HW2/service.c:323-328 | "p has spawned a new service c" is printed exactly when the command asks for it and the tree has grown by one service, which is c, the last child of p |
| ServiceLaws.MissingLine | HW2/service.c:325-326 | "x doesn't exist" is printed exactly when a spawn or kill names a service that is not there, and then nothing changes |
| ServiceLaws.StartedLine | HW2/service.c:269 | a new service announces itself exactly when its parent exists |
| ServiceLaws.LinesInOrder | HW2/service.c:234-248 | a new service announces itself before it is reported, and the two acquisitions come in order and before the report of the exchange |
| ServiceLaws.ReceiptsComeFirst | HW2/service.c:282-292 | the first lines are receipts by the services of the preorder, one each, up to the target of a spawn or kill, the later of the two services of an exchange, or all when there is no target; no other line is a receipt |
| ServiceLaws.RunsInTurn | HW2/service.c:277-522 | a run of commands followed by another does and prints everything of the first and then, if the manager still serves, everything of the second |
| ServiceRuns.SpawnKeeps | HW2/service.c:293-329 | a spawn with a new name keeps names distinct and registers at -1 |
| ServiceRuns.KillKeeps | HW2/service.c:330-387 | so does a kill |
| ServiceRuns.UnsetStays | HW2/service.c:277-522 | every command leaves all registers at -1, whatever names are used |
| ServiceRuns.OneManagerStays | HW2/service.c:21-23 | no command that returns brings a second service with the manager's name |
| ServiceRuns.PerformKeeps | HW2/service.c:277-522 | every command used as intended is allowed, does not hang, and keeps names distinct and registers at -1, exchange included |
| ServiceRuns.Handle | HW2/service.c:277-522 | one turn of the manager's loop does to the tree, and prints line by line, what the command means; killing the manager ends the loop, and spawning its namesake hangs it |
| ServiceRuns.Manage | HW2/service.c:277-522 | any run of commands does to the tree, and prints line by line, what the commands mean one after the other, up to the end of the manager, with registers at -1 and one manager between any two |
| ServiceRuns.IntendedRunsAreAllowed | HW2/service.c:277-522 | a run in which new services get new names and exchange names two different services that exist can always be carried out, never hangs, and keeps names distinct throughout |
| UserThreadsSafety.RemovedKeepsOthers | HW3/scheduler.c:54-66 | swap-with-last removes the running thread and no other, without duplicates |
| UserThreadsSafety.HandOffKeepsOthers | HW3/scheduler.c:43-52 | the hand-off moves the first waiting thread and no other |
| UserThreadsSafety.EnterKeepsQueues | HW3/scheduler.c:43-85 | every entry of the scheduler keeps the partition of the threads |
| UserThreadsSafety.CoreStep | HW3/threadtools.h:45-81 | every segment and the following entry keep the partition, the lock owner in the ready queue, and waiters only behind an owner |
| UserThreadsSafety.FifoStep | HW3/scheduler.c:43-60 | threads are handed the lock in the order they blocked, and none blocks twice |
| UserThreadsSafety.SerialStep | HW3/threads.c:52-80 | every step keeps the balance equal to the serial execution in lock-grant order |
| UserThreadsSafety.SerialNeverNegative | HW3/threads.c:64-70 | serial execution from 500 never gives a negative balance |
| UserThreadsSafety.TurnFits | HW3/threads.c:10-45 | one turn of a loop prints the next number of its sequence |
| UserThreadsSafety.OutputStep | HW3/threads.c:7-50 | every step keeps each thread's output right, whoever runs |
| UserThreadsSafety.ReachableInv | HW3/main.c:54-76 | all of this holds in every reachable state, for any set of threads |
| UserThreadsTheorems.ThreadsPartitioned | HW3/scheduler.c:43-85 | in every reachable state ready, waiting and exited threads partition the created ones, the running thread is live, and the queues fit arrays that hold all threads |
| UserThreadsTheorems.BankIsSerializable | HW3/threads.c:52-80 | at most one thread is between lock and unlock, the balance is that of the serial execution in lock-grant order, never negative, and at the end every bank thread had the lock once |
| UserThreadsTheorems.OperationAddsUnlessNegative | HW3/threads.c:64-70 | in every reachable state, the step of a bank operation adds its argument to the balance unless that would make it negative, and no other step touches the balance |
| UserThreadsTheorems.SerialIsTotal | HW3/threads.c:64-70 | the serial execution is 500 plus the arguments of the accepted operations, and one is refused exactly when it would make the balance negative |
| UserThreadsTheorems.BalanceIsTotalOfAccepted | HW3/threads.c:52-80 | so is the balance in every reachable state, over the operations performed so far in lock-grant order |
| UserThreadsTheorems.LockIsHandedOver | HW3/scheduler.c:43-66 | the lock is handed over only at an exit, to the longest-waiting thread, which runs next and finds itself owner |
| UserThreadsTheorems.FreeLockMeansNoWaiters | HW3/scheduler.c:43-52 | on entries by yield or block, a free lock means an empty waiting queue |
| UserThreadsTheorems.OutputIsScheduleIndependent | HW3/threads.c:7-50 | under every schedule a thread prints a prefix of fib(1)..fib(n) or 1!..n!, and all of it exactly when it has exited |
| UserThreadsTheorems.RunLength | HW3/threads.c:7-80 | a run is no longer than the turns it uses up |
| UserThreadsTheorems.RunsAreBounded | HW3/scheduler.c:35-85 | every schedule ends within n turns per loop thread and four per bank thread |
| UserThreadsTheorems.NoDeadlock | HW3/scheduler.c:35-36 | no thread can run exactly when the scheduler returns, exactly when all threads have exited; each blocks at most once |
| UserThreadsTheorems.ExactNumberOfSegments | HW3/threads.c:7-80 | under every schedule the system returns after exactly one segment per number to print, three per bank operation and one per block |
| UserThreadsTheorems.NoSignalNoSwitch | HW3/threadtools.h:60-66 | a thread that yields without a signal goes on running, with both queues unchanged and nobody else printing |
| UserThreadsTheorems.UninterruptedThreadFinishes | HW3/threads.c:7-50 | a thread that nobody interrupts prints the rest of its numbers in a row and exits |
| UserThreadsTheorems.SignalBringsNearer | HW3/scheduler.c:72-79 | a yield lowers the distance of every other ready thread by one |
| UserThreadsTheorems.RemovalBringsNoFarther | HW3/scheduler.c:54-66 | swap-with-last never raises it |
| UserThreadsTheorems.StepBringsNoFarther | HW3/scheduler.c:43-85 | no step raises it, hand-offs included |
| UserThreadsTheorems.WaitIsBounded | HW3/scheduler.c:43-85 | while a ready thread waits, signals and remaining distance stay within its distance at the start |
| UserThreadsTheorems.FairScheduling | HW3/scheduler.c:43-85 | from every reachable state, a ready thread waits at most its circular distance plus the block and exit events meanwhile |
| Scheduler.ThreadSystem.constructor | HW3/main.c:73-76 | the initial state |
| Scheduler.ThreadSystem.ThreadSetup | HW3/threadtools.h:45-54 | a new thread joins the end of the ready queue |
| Scheduler.ThreadSystem.ShiftWaiting | HW3/scheduler.c:50-51 | the shift loop drops the first waiting thread |
| Scheduler.ThreadSystem.GiveLock | HW3/scheduler.c:43-52 | the array code is the hand-off of the specification |
| Scheduler.ThreadSystem.ParkRunning | HW3/scheduler.c:54-60 | the running thread moves to the end of the waiting queue |
| Scheduler.ThreadSystem.FreeRunning | HW3/scheduler.c:61-66 | the running thread leaves the ready queue |
| Scheduler.ThreadSystem.Schedule | HW3/scheduler.c:43-85 | one entry of the scheduler, on arrays of length THREAD_MAX and within their bounds |
| Scheduler.ThreadSystem.FibonacciSegment | HW3/threads.c:7-28 | one turn of fibonacci |
| Scheduler.ThreadSystem.FactorialSegment | HW3/threads.c:30-50 | one turn of factorial |
| Scheduler.ThreadSystem.BankOperationSegment | HW3/threads.c:52-80 | one segment of bank_operation, with lock and unlock; the operation adds its argument unless the balance would become negative |
| Scheduler.ThreadSystem.RunSegment | HW3/threads.c:7-80 | the running thread up to its next yield, block or exit |
| Scheduler.ThreadSystem.EnterScheduler | HW3/scheduler.c:27-86 | the scheduler entered by signal, block or exit |
| Scheduler.ThreadSystem.Resume | HW3/threadtools.h:56-81 | one step of the system on its arrays is the step of the specification |
| Scheduler.ThreadSystem.Run | HW3/main.c:68-71 | for every sequence of signal decisions the system returns, with all threads exited, in a state reachable in the specification |
| BulletinBoard.SearchIsFirst | HW1/server.c:79-95 | the search yields the first unblocked slot in circular order after `last` |
| BulletinBoard.SearchFailsWhenAllBlocked | HW1/server.c:79-95 | it yields -1 exactly when all slots are blocked |
| BulletinBoard.ProbeReleasesNothing | HW1/server.c:84-90 | in every state that satisfies the invariant, the search gives back just what it took: no record lock of a grant is released |
| BulletinBoard.PullReleasesNothing | HW1/server.c:213-233 | neither is one by a pull |
| BulletinBoard.InvStep | HW1/server.c:170-261 | every step of every server keeps: tables mark exactly the slots granted, no server grants a slot twice, record locks are held only for grants |
| BulletinBoard.InvAlongRun | HW1/server.c:130-270 | so it holds along every run of any number of servers |
| BulletinBoard.LockedMeansOneGrant | HW1/server.c:170-261 | in every run and at every interleaving, `locked[i]` is set exactly when exactly one grant of slot i by that server is unfinished |
| BulletinBoard.FinishWritesItsSlot | HW1/server.c:249-250 | a finish writes its record to the slot of its grant, and no step writes anything else |
| BulletinBoard.BoardHasLastFinished | HW1/server.c:242-261 | in every run of any servers and clients, a slot has the record of the last finished post to it, or its initial content if there was none |
| BulletinBoard.LastFollowsGrants | HW1/server.c:189-196 | only its own grants move a server's `last`, and to the slot granted |
| BulletinBoard.LastIsPreviousGrant | HW1/server.c:65 | in every run `last` is the slot the server granted last, or the last slot of all if it has granted none |
| BulletinBoard.GuardedStep | HW1/server.c:184-257 | as long as the unchecked locks succeed, every unfinished grant keeps the record lock of its slot |
| BulletinBoard.FailureShares | HW1/server.c:184-185 | a failing unchecked lock makes two unfinished grants share a slot |
| BulletinBoard.ExclusiveIffLocksSucceed | HW1/server.c:174-197 | over a whole run, no two unfinished grants of any servers share a slot if and only if every unchecked lock succeeds |
| BulletinBoard.WholeRequestsAreExclusive | HW1/server.c:170-198 | if requests are served whole, no two unfinished grants of any servers share a slot |
| BulletinBoard.LoneServerIsExclusive | HW1/server.c:170-198 | nor do they with one server |
| BulletinBoard.ProbesCanRace | HW1/server.c:86-88 | for every board with at least two servers, a run in which they do |
| BulletinBoard.ExclusiveIffLoneServer | HW1/server.c:79-95 | all interleavings are free of shared slots if and only if there is one server |
| BulletinBoard.BlockedMeansGranted | HW1/server.c:84-92 | the slots passed over are exactly those with an unfinished grant of any server |
| BulletinBoard.FullMeansAllGranted | HW1/server.c:176-181 | "!full" is answered exactly when N posts are unfinished |
| BulletinBoard.PostGrantsFirstFreeSlot | HW1/server.c:170-198 | a post gets the first slot after the server's previous grant, in circular order, that nobody has an unfinished grant of, and is refused only when there is none |
| BulletinBoard.WarningCountsGrants | HW1/server.c:239-240 | the number in the warning is the number of unfinished posts |
| BulletinBoard.PullSendsReadable | HW1/server.c:213-233 | a pull sends the non-empty records of the slots without an unfinished post, the same from every server |
| BulletinBoard.PullSendsInSlotOrder | HW1/server.c:213-233 | the records sent are those of exactly the non-empty slots without an unfinished post, in increasing slot order |
| BulletinBoard.SearchWithoutGrants | HW1/server.c:81-90 | when no post is unfinished the search finds the slot right after `last` |
| BulletinBoard.RingStep | HW1/server.c:174-197 | with posts one after the other, post number m is granted slot m modulo N |
| BulletinBoard.RingLogGrows | HW1/server.c:249-250 | writing post number m to slot m modulo N keeps the board a ring log |
| BulletinBoard.SequentialPostsFormARing | HW1/server.c:65 | in every run with posts one after the other, pulls in between allowed, the board is the ring log of the last N posts over the initial contents |
| BulletinBoard.PostLandsInTurn | HW1/server.c:249-257 | in such a run post number m is written to slot m modulo N |
| BulletinProbes.InvStep | HW1/server.c:79-261 | with one step for every single lock operation, every step of every server keeps: tables mark exactly the slots granted, no server grants a slot twice, and a record lock is held for a grant or for a moment |
| BulletinProbes.ReachableInv | HW1/server.c:79-261 | so it holds in every state of every run at that grain |
| BulletinProbes.GrantKeepsItsLock | HW1/server.c:84-90 | no single lock operation of any search, pull or finish gives back the record lock of another unfinished grant |
| BulletinProbes.LockLastsAsLongAsGrant | HW1/server.c:184-257 | in every run the record lock held for a grant stays held as long as the grant is unfinished |
| BulletinProbes.PassesIffGrantedOrTouched | HW1/server.c:216-220 | a search or pull passes over a slot if and only if the slot has an unfinished grant or another server holds its lock for just that moment |
| BulletinProbes.LoneServerNeverFalseFull | HW1/server.c:79-95 | a lone server answers "!full" only when N posts are unfinished |
| BulletinProbes.PullKeepsPostOut | HW1/server.c:213-233 | for any N, the run in which the pull of one server keeps the search of another out of every slot in turn |
| BulletinProbes.FalseFullIffTwoServers | HW1/server.c:176-181 | some run makes a server answer "!full" although fewer than N posts are unfinished, if and only if there are at least two servers |
| BulletinProbes.GuardedIffLocksSucceed | HW1/server.c:184-185 | at the grain of single lock operations too: every unfinished grant has its record lock throughout a run if and only if the unchecked lock always succeeds |
| BulletinProbes.GuardedIsExclusive | HW1/server.c:184-185 | and then no two unfinished grants of any servers share a slot |
| BulletinProbes.SearchAlone | HW1/server.c:79-95 | a search without interference ends, step by step, with the slot of the circular search and all locks as they were |
| BulletinProbes.PostAlone | HW1/server.c:174-183 | a post without interference up to its search result is the single step of the coarser model |
| BulletinProbes.TakeAndFinishAgree | HW1/server.c:184-197 | granting and finishing are the steps of the coarser model |
| BulletinProbes.PullAlone | HW1/server.c:213-233 | a pull without interference leaves tables, locks and grants as they were |
| BulletinServer.RecordFile.constructor | HW1/server.c:121-127 | the file has its records, and no lock is held |
| BulletinServer.RecordFile.WriteLock | HW1/server.c:20-32 | a record lock is refused exactly when another process holds it |
| BulletinServer.RecordFile.Unlock | HW1/server.c:22-32 | unlocking gives back the own lock and touches no other |
| BulletinServer.ServerProcess.constructor | HW1/server.c:65-68 | the table is clear and `last` is the last slot |
| BulletinServer.ServerProcess.FindAvailable | HW1/server.c:79-95 | the loop is the circular search; -1 exactly when all slots are blocked |
| BulletinServer.ServerProcess.Post | HW1/server.c:170-198 | the handler is the probe and the lock of the specification, and `last` becomes the slot granted |
| BulletinServer.ServerProcess.Finish | HW1/server.c:242-261 | the handler writes the record to the slot the client names and to no other, and is the finish step |
| BulletinServer.ServerProcess.Pull | HW1/server.c:205-241 | the handler sends and counts what the specification says, and is the pull step |
| BulletinServer.ServerProcess.TryLock | HW1/server.c:216-220 | the lock of a slot that is not blocked is taken and given back |

## Left out

- HW1 sockets, `poll`, `accept`, the request table and the client program; `!exit`, which touches no slot.
- HW1 servers that start or die during a run: the operating system then drops record locks.
- HW1 records in the finer model: `BulletinProbes` is about locks and grants only; what is written and sent is in `BulletinBoard`, where a search and a pull are single steps.
- HW2 `fork`, `execl`, `dup2` and descriptor numbers: a spawn adds a child with empty pipes, and a descriptor is the child's index.
- HW2 fixed-size buffers (names, messages, the table of 40 children), `scanf`, message bytes and fields that are never initialised; as a consequence the "has received" lines that a descendant of a killed service may print from uninitialised bytes.
- HW2 in-place update: the processes share no memory, so a service is a value, and the methods return the new service instead of changing one.
- HW2 exchange with a missing service, with the same service twice, or with duplicate names: outside the intended use, so exchange has preconditions.
- ServiceRuns.Handle: starts from a tree in which no second service has the manager's name, which every command that returns keeps; exchange is covered when names are distinct and both services exist.
- ServiceRuns.Manage: likewise. What a new service with the manager's name does with the commands it reads itself, while the manager waits for it, is not covered.
- HW2 pipes of spawn, kill, traversal and find: one service is active at a time there, so writing a message and reading its reply is a call; pipes and interleavings are modelled for `start_exchange`.
- HW3 `setjmp` and `longjmp` on real stacks, `alarm`, `sleep` and the lines printed by the signal handler and the bank threads: a saved environment is a program counter.
- HW4 creation of the workers one by one: a worker that does not exist yet is one that has not moved yet. `tpool_destroy` only frees.
- HW4 effects of the unlocked store to `finish` beyond sequential consistency, and tasks that add tasks.
- Machine-integer overflow in fibonacci, factorial and the balance.
- Benchmarks, sample programs, the Python judging script and the Makefiles.
