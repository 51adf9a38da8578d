/**
 The HW3 scheduler and thread bodies on their own data: two fixed arrays of thread ids with their
 sizes, the current index, the bank, and the thread control blocks, all updated in place. Each
 method refines the corresponding function of UserThreads, and Run executes the whole system for any
 signal schedule and is shown to return with every thread finished.
 */
module Scheduler {
  import opened UserThreads
  import opened UserThreadsSafety
  import opened UserThreadsTheorems

  const THREAD_MAX := 16

  class ThreadSystem {
    const readyQueue: array<int>
    const waitingQueue: array<int>
    var rqSize: nat
    var rqCurrent: nat
    var wqSize: nat
    var lockOwner: int
    var balance: int
    var tcbs: map<int, Tcb>
    var printed: map<int, seq<int>>
    ghost var grants: seq<int>
    ghost var blocked: seq<int>
    ghost var handed: seq<int>
    ghost var exited: seq<int>

    /** The arrays have room for every live thread. */
    ghost predicate Fits()
      reads this
    {
      && readyQueue != waitingQueue
      && readyQueue.Length == waitingQueue.Length == THREAD_MAX
      && rqSize + wqSize <= THREAD_MAX
    }

    ghost function Lists(): Queues
      reads this, readyQueue, waitingQueue
      requires Fits()
    {
      Queues(readyQueue[..rqSize], rqCurrent, waitingQueue[..wqSize], lockOwner)
    }

    ghost function View(): System
      reads this, readyQueue, waitingQueue
      requires Fits()
    {
      System(tcbs, Lists(), balance, printed, grants, blocked, handed, exited)
    }

    /** init_bank, before any thread exists. */
    constructor ()
      ensures Fits() && Initial(View()) && rqSize == 0
      ensures fresh(readyQueue) && fresh(waitingQueue)
    {
      readyQueue, waitingQueue := new int[THREAD_MAX], new int[THREAD_MAX];
      rqSize, rqCurrent, wqSize := 0, 0, 0;
      lockOwner, balance := FREE, INITIAL_BALANCE;
      tcbs, printed := map[], map[];
      grants, blocked, handed, exited := [], [], [], [];
    }

    /** thread_setup for a thread that init_threads may create: a new id, and a positive count for the loops. */
    method ThreadSetup(id: int, kind: Kind, arg: int)
      requires Fits() && Initial(View()) && rqSize < THREAD_MAX
      requires id >= 0 && id !in tcbs && (kind.Bank? || arg > 0)
      modifies this`rqSize, this`tcbs, this`printed, readyQueue
      ensures Fits() && Initial(View())
      ensures View().q.rq == old(View().q.rq) + [id]
      ensures tcbs.Keys == old(tcbs.Keys) + {id} && tcbs[id].kind == kind && tcbs[id].arg == arg
    {
      readyQueue[rqSize] := id;
      tcbs, printed := tcbs[id := Tcb(kind, arg, Fresh, 0, 0, 0)], printed[id := []];
      rqSize := rqSize + 1;
      assert readyQueue[..rqSize] == old(readyQueue[..rqSize]) + [id];
    }

    /** Lines 50-51. */
    method ShiftWaiting()
      requires Fits() && wqSize < THREAD_MAX
      modifies waitingQueue
      ensures waitingQueue[..wqSize] == old(waitingQueue[1..wqSize + 1])
    {
      var i := 0;
      while i < wqSize
        invariant 0 <= i <= wqSize
        invariant forall k :: 0 <= k < i ==> waitingQueue[k] == old(waitingQueue[k + 1])
        invariant forall k :: i <= k < THREAD_MAX ==> waitingQueue[k] == old(waitingQueue[k])
      {
        waitingQueue[i] := waitingQueue[i + 1];
        i := i + 1;
      }
    }

    /** Lines 43-52: hand the lock to the first waiting thread and shift the others. */
    method GiveLock()
      requires Fits()
      modifies this`rqSize, this`wqSize, this`lockOwner, readyQueue, waitingQueue
      ensures Fits() && Lists() == HandOff(old(Lists())) && rqSize >= old(rqSize)
    {
      if lockOwner == FREE && wqSize != 0 {
        readyQueue[rqSize] := waitingQueue[0];
        lockOwner := readyQueue[rqSize];
        rqSize := rqSize + 1;
        wqSize := wqSize - 1;
        ShiftWaiting();
        assert readyQueue[..rqSize] == old(readyQueue[..rqSize]) + [old(waitingQueue[0])];
        assert waitingQueue[..wqSize] == old(waitingQueue[..wqSize])[1..];
      }
    }

    /** Lines 56-59: the running thread joins the waiting queue. */
    method ParkRunning()
      requires Fits() && rqCurrent < rqSize
      modifies this`rqSize, this`wqSize, readyQueue, waitingQueue
      ensures Fits()
      ensures readyQueue[..rqSize] == Removed(old(readyQueue[..rqSize]), rqCurrent)
      ensures waitingQueue[..wqSize] == old(waitingQueue[..wqSize] + [readyQueue[rqCurrent]])
    {
      waitingQueue[wqSize] := readyQueue[rqCurrent];
      wqSize := wqSize + 1;
      readyQueue[rqCurrent] := readyQueue[rqSize - 1];
      rqSize := rqSize - 1;
    }

    /** Lines 63-65: the running thread disappears. */
    method FreeRunning()
      requires Fits() && rqCurrent < rqSize
      modifies this`rqSize, readyQueue
      ensures Fits() && readyQueue[..rqSize] == Removed(old(readyQueue[..rqSize]), rqCurrent)
    {
      readyQueue[rqCurrent] := readyQueue[rqSize - 1];
      rqSize := rqSize - 1;
    }

    /** The scheduler after its first call: lines 43-85. */
    method Schedule(e: Entry)
      requires Fits() && rqCurrent < rqSize
      modifies this`rqSize, this`rqCurrent, this`wqSize, this`lockOwner, readyQueue, waitingQueue
      ensures Fits() && Lists() == Dispatch(old(Lists()), e)
    {
      GiveLock();
      match e {
        case BySignal =>
          rqCurrent := if rqCurrent == rqSize - 1 then 0 else rqCurrent + 1;
        case ByBlock =>
          ParkRunning();
          rqCurrent := if rqCurrent == rqSize then 0 else rqCurrent;
        case ByExit =>
          FreeRunning();
          rqCurrent := if rqCurrent == rqSize then 0 else rqCurrent;
      }
    }

    /** Lines 10-21 of fibonacci. */
    method FibonacciSegment() returns (outcome: Outcome)
      requires Fits() && HasRunning(View())
      modifies this`tcbs, this`printed
      ensures (View(), outcome) == LoopSegment(old(View()), FibonacciTurn(old(tcbs[readyQueue[rqCurrent]])))
    {
      var t := readyQueue[rqCurrent];
      var c := tcbs[t];
      c := c.(i := if c.pc.Fresh? then 1 else c.i + 1);
      if c.i <= 2 {
        c := c.(x := 1, y := 1);
      } else {
        var tmp := c.y;
        c := c.(y := c.x + c.y);
        c := c.(x := tmp);
      }
      tcbs := tcbs[t := c.(pc := Looping)];
      printed := printed[t := printed[t] + [c.y]];
      outcome := if c.i == c.arg then Exits else Yields;
    }

    /** Lines 34-43 of factorial. */
    method FactorialSegment() returns (outcome: Outcome)
      requires Fits() && HasRunning(View())
      modifies this`tcbs, this`printed
      ensures (View(), outcome) == LoopSegment(old(View()), FactorialTurn(old(tcbs[readyQueue[rqCurrent]])))
    {
      var t := readyQueue[rqCurrent];
      var c := tcbs[t];
      c := c.(i := if c.pc.Fresh? then 1 else c.i + 1);
      if c.i <= 1 {
        c := c.(y := 1);
      } else {
        c := c.(y := c.y * c.i);
      }
      tcbs := tcbs[t := c.(pc := Looping)];
      printed := printed[t := printed[t] + [c.y]];
      outcome := if c.i == c.arg then Exits else Yields;
    }

    /** Lines 57-79 of bank_operation, from one saved place to the next. */
    method BankOperationSegment() returns (outcome: Outcome)
      requires Fits() && HasRunning(View())
      modifies this`tcbs, this`lockOwner, this`balance, this`grants, this`blocked
      ensures (View(), outcome) == BankSegment(old(View()))
      ensures old(balance) >= 0 && old(tcbs[readyQueue[rqCurrent]].pc.Acquired?) ==>
                var sum := old(balance + tcbs[readyQueue[rqCurrent]].arg);
                balance == if sum >= 0 then sum else old(balance)
    {
      var t := readyQueue[rqCurrent];
      var c := tcbs[t];
      match c.pc
      case Fresh =>
        if lockOwner == FREE || lockOwner == t {
          grants := if lockOwner == FREE then grants + [t] else grants;
          lockOwner := t;
          tcbs := tcbs[t := c.(pc := Acquired)];
          outcome := Yields;
        } else {
          blocked := blocked + [t];
          outcome := Blocks;
        }
      case Acquired =>
        if c.arg > 0 || (c.arg <= 0 && balance >= -c.arg) {
          balance := balance + c.arg;
        }
        tcbs := tcbs[t := c.(pc := Applied)];
        outcome := Yields;
      case _ =>
        if lockOwner == t {
          lockOwner := FREE;
        }
        outcome := Exits;
    }

    /** The running thread, up to its next yield, block or exit. */
    method RunSegment() returns (outcome: Outcome)
      requires Fits() && HasRunning(View())
      modifies this`tcbs, this`printed, this`lockOwner, this`balance, this`grants, this`blocked
      ensures (View(), outcome) == Segment(old(View()))
    {
      match tcbs[readyQueue[rqCurrent]].kind
      case Fibonacci => outcome := FibonacciSegment();
      case Factorial => outcome := FactorialSegment();
      case Bank => outcome := BankOperationSegment();
    }

    /** Schedule, with the histories brought up to date. */
    method EnterScheduler(e: Entry)
      requires Fits() && rqCurrent < rqSize
      modifies this`rqSize, this`rqCurrent, this`wqSize, this`lockOwner, readyQueue, waitingQueue,
               this`exited, this`handed, this`grants
      ensures Fits() && View() == Enter(old(View()), e)
    {
      ghost var s := View();
      Schedule(e);
      exited := if e.ByExit? then exited + [s.q.rq[s.q.cur]] else exited;
      handed := if HandsOff(s.q) then handed + [s.q.wq[0]] else handed;
      grants := if HandsOff(s.q) then grants + [s.q.wq[0]] else grants;
    }

    /** Resume the running thread and, if it gives up the processor, schedule the next one. */
    method Resume(signal: bool)
      requires Fits() && HasRunning(View())
      modifies this, readyQueue, waitingQueue
      ensures Fits() && View() == Step(old(View()), signal)
    {
      var outcome := RunSegment();
      SegmentKeeps(old(View()));
      match outcome
      case Yields =>
        if signal {
          EnterScheduler(BySignal);
        }
      case Blocks => EnterScheduler(ByBlock);
      case Exits => EnterScheduler(ByExit);
    }

    /**
     The whole system under the signal decisions `signals`: it returns, and then every thread has
     exited. All guarantees about reachable states apply to the final one.
     */
    method Run(signals: nat -> bool)
      requires Fits() && Initial(View())
      modifies this, readyQueue, waitingQueue
      ensures Fits() && Reachable(old(View()), View()) && Done(View())
    {
      ghost var s0 := View();
      ghost var run: seq<bool> := [];
      assert Inv(s0);
      var n: nat := 0;
      while rqSize > 0 || wqSize > 0
        invariant Fits()
        invariant IsRun(s0, run, View()) && Inv(View()) && View().tcbs.Keys == s0.tcbs.Keys
        decreases AllTurns(View(), s0.q.rq)
      {
        ghost var s := View();
        CurrentIsLive(s);
        TurnsNotNegative(s, s0.q.rq);
        TurnIsSpent(s, signals(n));
        OthersKeepTurns(s, signals(n));
        AllTurnsAreSpent(s, Step(s, signals(n)), Running(s), s0.q.rq);
        InvStep(s, signals(n));
        StepKeepsArgs(s, signals(n));
        RunExtends(s0, run, s, signals(n));
        Resume(signals(n));
        run := run + [signals(n)];
        n := n + 1;
      }
    }

    static lemma {:induction false} RunExtends(s: System, run: seq<bool>, s': System, signal: bool)
      requires IsRun(s, run, s') && HasRunning(s')
      ensures IsRun(s, run + [signal], Step(s', signal))
      decreases |run|
    {
      if run == [] {
        assert [signal][1..] == [];
      } else {
        RunExtends(Step(s, run[0]), run[1..], s', signal);
        assert (run + [signal])[1..] == run[1..] + [signal];
      }
    }
  }
}
