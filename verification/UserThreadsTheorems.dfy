/**
 The guarantees of the HW3 thread system over every signal schedule.
 */
module UserThreadsTheorems {
  import opened UserThreads
  import opened UserThreadsSafety

  /**
   In every reachable state the ready queue, the waiting queue and the exited threads partition the
   created threads, the running thread is a live one, and both queues fit into arrays that hold all
   created threads.
   */
  lemma ThreadsPartitioned(s0: System, s: System)
    requires Reachable(s0, s)
    ensures Distinct(s.q.rq + s.q.wq + s.exited)
    ensures forall t :: t in s0.q.rq <==> t in s.q.rq + s.q.wq + s.exited
    ensures |s.q.rq + s.q.wq + s.exited| == |s0.q.rq|
    ensures !Done(s) ==> HasRunning(s) && Running(s) !in s.exited
  {
    ReachableInv(s0, s);
    if !Done(s) {
      CurrentIsLive(s);
    }
    DistinctConcat(s.q.rq, s.q.wq);
    DistinctConcat(s.q.rq + s.q.wq, s.exited);
    forall t ensures t in s0.q.rq <==> t in s.q.rq + s.q.wq + s.exited {
      assert t in s0.q.rq <==> t in s0.tcbs;
    }
  }

  lemma DistinctConcat(xs: seq<int>, ys: seq<int>)
    requires Distinct(xs) && Distinct(ys) && forall t :: t in xs ==> t !in ys
    ensures Distinct(xs + ys)
  {
    forall i, j | 0 <= i < j < |xs + ys| ensures (xs + ys)[i] != (xs + ys)[j] {
      if i < |xs| <= j {
        assert xs[i] in xs && ys[j - |xs|] in ys;
      }
    }
  }

  lemma CurrentIsLive(s: System)
    requires QueueInv(s) && s.q.rq != []
    ensures HasRunning(s) && Running(s) in s.q.rq && Running(s) !in s.exited
  {
    var t := s.q.rq[s.q.cur];
    assert t in s.q.rq && t in s.tcbs;
  }

  /**
   At most one thread is between lock() and unlock(), it is the lock owner and it is ready to run;
   the balance is what performing the finished operations one at a time, in the order the lock was
   granted, makes of 500; and it is never negative.
   */
  lemma BankIsSerializable(s0: System, s: System)
    requires Reachable(s0, s)
    ensures forall t :: t in s.q.rq ==> t in s.tcbs
    ensures forall t :: t in s.q.rq && s.tcbs[t].kind.Bank? && !s.tcbs[t].pc.Fresh? ==> t == s.q.owner
    ensures s.q.owner == FREE || s.q.owner in s.q.rq
    ensures s.balance == Serial(Args(s0), Settled(s)) && s.balance >= 0
    ensures Distinct(s.grants)
    ensures Done(s) ==> Settled(s) == s.grants && forall t :: t in s.grants <==> t in s0.tcbs && s0.tcbs[t].kind.Bank?
  {
    ReachableInv(s0, s);
    SerialNeverNegative(Args(s0), Settled(s));
  }

  // ---------------------------------------------------------------------------------------------
  // What a bank operation does

  /** A segment of a bank thread, on its own. */
  lemma SegmentAddsUnlessNegative(s: System)
    requires HasRunning(s) && s.balance >= 0
    ensures var c := s.tcbs[Running(s)];
            Segment(s).0.balance ==
            if c.kind.Bank? && c.pc.Acquired? && s.balance + c.arg >= 0 then s.balance + c.arg else s.balance
  {
  }

  /**
   In every reachable state: the step in which a bank thread performs its operation adds its argument
   to the balance, unless that would make the balance negative; no other step touches the balance.
   */
  lemma OperationAddsUnlessNegative(s0: System, s: System, signal: bool)
    requires Reachable(s0, s) && HasRunning(s)
    ensures var c := s.tcbs[Running(s)];
            Step(s, signal).balance ==
            if c.kind.Bank? && c.pc.Acquired? && s.balance + c.arg >= 0 then s.balance + c.arg else s.balance
  {
    BankIsSerializable(s0, s);
    SegmentAddsUnlessNegative(s);
    EntryKeepsBalance(s, signal);
  }

  lemma EntryKeepsBalance(s: System, signal: bool)
    requires HasRunning(s)
    ensures Step(s, signal).balance == Segment(s).0.balance
  {
    SegmentKeeps(s);
  }

  /** 500 and the arguments of those of the first n operations that were accepted. */
  function Total(args: map<int, int>, order: seq<int>, accepted: seq<bool>, n: nat): int
    requires n <= |order| == |accepted|
  {
    if n == 0 then 500
    else
      Total(args, order, accepted, n - 1)
      + if accepted[n - 1] && order[n - 1] in args then args[order[n - 1]] else 0
  }

  /** Operation number i is refused exactly when it would make the balance negative. */
  ghost predicate RefusedAt(args: map<int, int>, order: seq<int>, accepted: seq<bool>, i: nat)
    requires i < |order| == |accepted|
  {
    order[i] in args ==> (accepted[i] <==> Total(args, order, accepted, i) + args[order[i]] >= 0)
  }

  ghost predicate RefusedIfNegative(args: map<int, int>, order: seq<int>, accepted: seq<bool>)
    requires |order| == |accepted|
  {
    forall i {:trigger RefusedAt(args, order, accepted, i)} :: 0 <= i < |order| ==> RefusedAt(args, order, accepted, i)
  }

  lemma {:induction false} TotalOfPrefix(
    args: map<int, int>, order: seq<int>, accepted: seq<bool>, x: int, y: bool, n: nat)
    requires n <= |order| == |accepted|
    ensures Total(args, order + [x], accepted + [y], n) == Total(args, order, accepted, n)
  {
    if n > 0 {
      TotalOfPrefix(args, order, accepted, x, y, n - 1);
    }
  }

  lemma OneMoreOperation(args: map<int, int>, order: seq<int>, accepted: seq<bool>, t: int, ok: bool)
    requires |order| == |accepted| && RefusedIfNegative(args, order, accepted) && t in args
    requires ok <==> Total(args, order, accepted, |order|) + args[t] >= 0
    ensures RefusedIfNegative(args, order + [t], accepted + [ok])
    ensures Total(args, order + [t], accepted + [ok], |order| + 1)
            == Total(args, order, accepted, |order|) + if ok then args[t] else 0
  {
    var order', accepted' := order + [t], accepted + [ok];
    forall i {:trigger RefusedAt(args, order', accepted', i)} | 0 <= i < |order'|
      ensures RefusedAt(args, order', accepted', i)
    {
      TotalOfPrefix(args, order, accepted, t, ok, i);
      assert i < |order| ==> RefusedAt(args, order, accepted, i);
    }
    TotalOfPrefix(args, order, accepted, t, ok, |order|);
  }

  lemma SerialAppend(args: map<int, int>, order: seq<int>, t: int)
    requires t in args
    ensures Serial(args, order + [t]) == Applying(Serial(args, order), args[t])
  {
    assert (order + [t])[..|order|] == order;
  }

  /** The serial execution, told without the code of the operation. */
  lemma {:induction false} SerialIsTotal(args: map<int, int>, order: seq<int>) returns (accepted: seq<bool>)
    requires forall t :: t in order ==> t in args
    ensures |accepted| == |order| && RefusedIfNegative(args, order, accepted)
    ensures Serial(args, order) == Total(args, order, accepted, |order|)
  {
    if order == [] {
      return [];
    }
    var before, last := order[..|order| - 1], order[|order| - 1];
    var sofar := SerialIsTotal(args, before);
    var ok := Serial(args, before) + args[last] >= 0;
    OneMoreOperation(args, before, sofar, last, ok);
    SerialAppend(args, before, last);
    SerialNeverNegative(args, before);
    assert order == before + [last];
    accepted := sofar + [ok];
  }

  /**
   In every reachable state the balance is 500 plus the arguments of the accepted ones among the
   operations performed, in lock-grant order, and an operation is refused exactly when it would have
   made the balance negative. At the end those are the operations of all bank threads.
   */
  lemma BalanceIsTotalOfAccepted(s0: System, s: System) returns (accepted: seq<bool>)
    requires Reachable(s0, s)
    ensures |accepted| == |Settled(s)| && RefusedIfNegative(Args(s0), Settled(s), accepted)
    ensures s.balance == Total(Args(s0), Settled(s), accepted, |Settled(s)|)
    ensures forall t :: t in Settled(s) ==> t in Args(s0) && s0.tcbs[t].kind.Bank?
  {
    ReachableInv(s0, s);
    assert forall t :: t in Settled(s) ==> t in s.grants;
    accepted := SerialIsTotal(Args(s0), Settled(s));
  }

  /**
   The scheduler hands the lock over only when a thread exits. The thread that has waited longest
   gets it, runs next, and finds itself the owner when it repeats lock().
   */
  lemma LockIsHandedOver(s0: System, s: System, signal: bool)
    requires Reachable(s0, s) && HasRunning(s)
    ensures s.blocked == s.handed + s.q.wq
    ensures HandsOff(Segment(s).0.q) ==>
              var s' := Step(s, signal);
              && Segment(s).1.Exits?
              && s'.handed == s.handed + [s.q.wq[0]]
              && HasRunning(s') && Running(s') == s'.q.owner == s.q.wq[0]
              && Segment(s').1.Yields? && Segment(s').0.q.owner == s.q.wq[0]
    ensures !HandsOff(Segment(s).0.q) ==> Step(s, signal).handed == s.handed
  {
    ReachableInv(s0, s);
    SegmentKeeps(s);
    match Segment(s).1
    case Yields => YieldKeepsLock(s, signal);
    case Blocks => BlockKeepsLock(s, signal);
    case Exits =>
      if HandsOff(Segment(s).0.q) {
        assert s.q.wq[0] in s.q.wq;
      }
  }

  /** On an entry by yield or by blocking, a free lock means that nobody waits for it. */
  lemma FreeLockMeansNoWaiters(s0: System, s: System)
    requires Reachable(s0, s) && HasRunning(s)
    ensures !Segment(s).1.Exits? && Segment(s).0.q.owner == FREE ==> s.q.wq == []
  {
    ReachableInv(s0, s);
  }

  /**
   Whatever the schedule, a fibonacci thread has printed fib(1), fib(2), ... and a factorial thread
   1!, 2!, ... up to its own progress, and exactly the first `arg` of them when it exits.
   */
  lemma OutputIsScheduleIndependent(s0: System, s: System, t: int)
    requires Reachable(s0, s) && t in s0.tcbs && !s0.tcbs[t].kind.Bank?
    ensures t in s.printed && s.printed[t] <= Expected(s0.tcbs[t].kind, s0.tcbs[t].arg)
    ensures t in s.exited <==> s.printed[t] == Expected(s0.tcbs[t].kind, s0.tcbs[t].arg)
  {
    ReachableInv(s0, s);
    assert Args(s)[t] == Args(s0)[t];
    var c := s.tcbs[t];
    assert OutputFits(c, s.printed[t], t in s.exited);
  }

  // ---------------------------------------------------------------------------------------------
  // Termination

  /** The segments a thread can still run. A bank thread that has blocked once will not block again. */
  function Turns(s: System, t: int): int {
    if t !in s.tcbs || t in s.exited then 0
    else
      var c := s.tcbs[t];
      match c.pc
      case Fresh => if !c.kind.Bank? then c.arg else if t in s.blocked then 3 else 4
      case Looping => c.arg - c.i
      case Acquired => 2
      case Applied => 1
  }

  function AllTurns(s: System, ids: seq<int>): int {
    if ids == [] then 0 else Turns(s, ids[0]) + AllTurns(s, ids[1..])
  }

  lemma TurnIsSpent(s: System, signal: bool)
    requires Inv(s) && HasRunning(s)
    ensures Turns(Step(s, signal), Running(s)) < Turns(s, Running(s))
  {
    var t := Running(s);
    assert t in s.q.rq;
    assert !s.tcbs[t].kind.Bank? ==> OutputFits(s.tcbs[t], s.printed[t], false);
  }

  lemma OthersKeepTurns(s: System, signal: bool)
    requires HasRunning(s)
    ensures forall u :: u != Running(s) ==> Turns(Step(s, signal), u) == Turns(s, u)
  {
    forall u | u != Running(s) ensures Turns(Step(s, signal), u) == Turns(s, u) {
      StepKeepsOther(s, signal, u);
    }
  }

  lemma {:induction false} AllTurnsAreSpent(s: System, s': System, t: int, ids: seq<int>)
    requires Turns(s', t) < Turns(s, t) && forall u :: u != t ==> Turns(s', u) == Turns(s, u)
    ensures AllTurns(s', ids) <= AllTurns(s, ids) - if t in ids then 1 else 0
  {
    if ids != [] {
      AllTurnsAreSpent(s, s', t, ids[1..]);
    }
  }

  lemma {:induction false} TurnsNotNegative(s: System, ids: seq<int>)
    requires Inv(s)
    ensures AllTurns(s, ids) >= 0
  {
    if ids != [] {
      var t := ids[0];
      assert t in s.tcbs && !s.tcbs[t].kind.Bank? ==> OutputFits(s.tcbs[t], s.printed[t], t in s.exited);
      TurnsNotNegative(s, ids[1..]);
    }
  }

  lemma {:induction false} RunLength(s: System, run: seq<bool>, s': System, ids: seq<int>)
    requires Inv(s) && IsRun(s, run, s') && forall t :: t in s.tcbs ==> t in ids
    ensures |run| + AllTurns(s', ids) <= AllTurns(s, ids)
    decreases |run|
  {
    if run != [] {
      InvStep(s, run[0]);
      StepKeepsArgs(s, run[0]);
      TurnIsSpent(s, run[0]);
      OthersKeepTurns(s, run[0]);
      AllTurnsAreSpent(s, Step(s, run[0]), Running(s), ids);
      RunLength(Step(s, run[0]), run[1..], s', ids);
    }
  }

  /** One turn per number to print, and at most four per bank thread: block, acquire, apply, release. */
  function Budget(tcbs: map<int, Tcb>, ids: seq<int>): int {
    if ids == [] then 0
    else
      (if ids[0] !in tcbs then 0 else if tcbs[ids[0]].kind.Bank? then 4 else tcbs[ids[0]].arg)
      + Budget(tcbs, ids[1..])
  }

  lemma {:induction false} InitialTurns(s: System, ids: seq<int>)
    requires Initial(s)
    ensures AllTurns(s, ids) == Budget(s.tcbs, ids)
  {
    if ids != [] {
      InitialTurns(s, ids[1..]);
    }
  }

  /** Every signal schedule terminates within a fixed budget of segments. */
  lemma RunsAreBounded(s0: System, run: seq<bool>, s: System)
    requires Initial(s0) && IsRun(s0, run, s)
    ensures |run| <= Budget(s0.tcbs, s0.q.rq)
  {
    assert Reachable(s0, s);
    ReachableInv(s0, s);
    assert Inv(s0);
    RunLength(s0, run, s, s0.q.rq);
    TurnsNotNegative(s, s0.q.rq);
    InitialTurns(s0, s0.q.rq);
  }

  /**
   No deadlock: a reachable state without a thread to run is one in which the scheduler returns, and
   that is so exactly when every thread has exited. Each thread blocks at most once.
   */
  lemma NoDeadlock(s0: System, s: System)
    requires Reachable(s0, s)
    ensures !HasRunning(s) <==> Done(s)
    ensures Done(s) <==> forall t :: t in s0.tcbs ==> t in s.exited
    ensures Distinct(s.blocked)
  {
    ReachableInv(s0, s);
    if s.q.rq != [] {
      CurrentIsLive(s);
    }
  }

  /** The segments a thread has to run, not counting one that ends in a block. */
  function Segments(s: System, t: int): int {
    if t !in s.tcbs || t in s.exited then 0
    else
      var c := s.tcbs[t];
      match c.pc
      case Fresh => if c.kind.Bank? then 3 else c.arg
      case Looping => c.arg - c.i
      case Acquired => 2
      case Applied => 1
  }

  function AllSegments(s: System, ids: seq<int>): int {
    if ids == [] then 0 else Segments(s, ids[0]) + AllSegments(s, ids[1..])
  }

  lemma LoopSegmentIsRun(s: System, signal: bool)
    requires Inv(s) && HasRunning(s) && !s.tcbs[Running(s)].kind.Bank?
    ensures Segments(Step(s, signal), Running(s)) == Segments(s, Running(s)) - 1
    ensures Step(s, signal).blocked == s.blocked
  {
    var t := Running(s);
    assert t in s.q.rq && OutputFits(s.tcbs[t], s.printed[t], false);
  }

  lemma BankSegmentIsRun(s: System, signal: bool)
    requires Inv(s) && HasRunning(s) && s.tcbs[Running(s)].kind.Bank?
    ensures var s' := Step(s, signal);
            Segments(s', Running(s)) == Segments(s, Running(s)) - 1 + |s'.blocked| - |s.blocked|
  {
    assert Running(s) in s.q.rq;
  }

  lemma SegmentIsRun(s: System, signal: bool)
    requires Inv(s) && HasRunning(s)
    ensures var s' := Step(s, signal);
            && Segments(s', Running(s)) == Segments(s, Running(s)) - 1 + |s'.blocked| - |s.blocked|
            && forall u :: u != Running(s) ==> Segments(s', u) == Segments(s, u)
  {
    if s.tcbs[Running(s)].kind.Bank? {
      BankSegmentIsRun(s, signal);
    } else {
      LoopSegmentIsRun(s, signal);
    }
    forall u | u != Running(s) ensures Segments(Step(s, signal), u) == Segments(s, u) {
      StepKeepsOther(s, signal, u);
    }
  }

  lemma {:induction false} SegmentsWithout(s: System, s': System, t: int, ids: seq<int>)
    requires t !in ids && forall u :: u != t ==> Segments(s', u) == Segments(s, u)
    ensures AllSegments(s', ids) == AllSegments(s, ids)
  {
    if ids != [] {
      assert ids[0] in ids;
      SegmentsWithout(s, s', t, ids[1..]);
    }
  }

  lemma {:induction false} AllSegmentsAreRun(s: System, s': System, t: int, ids: seq<int>)
    requires Distinct(ids) && t in ids && forall u :: u != t ==> Segments(s', u) == Segments(s, u)
    ensures AllSegments(s', ids) - AllSegments(s, ids) == Segments(s', t) - Segments(s, t)
  {
    if ids[0] == t {
      SegmentsWithout(s, s', t, ids[1..]);
    } else {
      AllSegmentsAreRun(s, s', t, ids[1..]);
    }
  }

  lemma {:induction false} SegmentsAddUp(s: System, run: seq<bool>, s': System, ids: seq<int>)
    requires Inv(s) && IsRun(s, run, s') && Distinct(ids) && forall t :: t in s.tcbs ==> t in ids
    ensures |run| + AllSegments(s', ids) == AllSegments(s, ids) + |s'.blocked| - |s.blocked|
    decreases |run|
  {
    if run != [] {
      InvStep(s, run[0]);
      StepKeepsArgs(s, run[0]);
      SegmentIsRun(s, run[0]);
      AllSegmentsAreRun(s, Step(s, run[0]), Running(s), ids);
      SegmentsAddUp(Step(s, run[0]), run[1..], s', ids);
    }
  }

  lemma {:induction false} NoSegmentsLeft(s: System, ids: seq<int>)
    requires forall t :: t in s.tcbs ==> t in s.exited
    ensures AllSegments(s, ids) == 0
  {
    if ids != [] {
      NoSegmentsLeft(s, ids[1..]);
    }
  }

  /** One segment per number to print and three per bank operation: acquire, apply, release. */
  function Work(tcbs: map<int, Tcb>, ids: seq<int>): int {
    if ids == [] then 0
    else
      (if ids[0] !in tcbs then 0 else if tcbs[ids[0]].kind.Bank? then 3 else tcbs[ids[0]].arg)
      + Work(tcbs, ids[1..])
  }

  lemma {:induction false} InitialSegments(s: System, ids: seq<int>)
    requires Initial(s)
    ensures AllSegments(s, ids) == Work(s.tcbs, ids)
  {
    if ids != [] {
      InitialSegments(s, ids[1..]);
    }
  }

  /** The system returns after exactly that many segments, and one more for each thread that had to block. */
  lemma ExactNumberOfSegments(s0: System, run: seq<bool>, s: System)
    requires Initial(s0) && IsRun(s0, run, s) && Done(s)
    ensures |run| == Work(s0.tcbs, s0.q.rq) + |s.blocked|
  {
    assert Reachable(s0, s) && Inv(s0);
    NoDeadlock(s0, s);
    ReachableInv(s0, s);
    SegmentsAddUp(s0, run, s, s0.q.rq);
    NoSegmentsLeft(s, s0.q.rq);
    InitialSegments(s0, s0.q.rq);
  }

  // ---------------------------------------------------------------------------------------------
  // Yields without a signal

  ghost predicate OthersPrintNothing(s: System, s': System, t: int) {
    forall u :: u in s.printed && u != t ==> u in s'.printed && s'.printed[u] == s.printed[u]
  }

  lemma StillNothing(s: System, mid: System, s': System, t: int)
    requires OthersPrintNothing(s, mid, t) && OthersPrintNothing(mid, s', t)
    ensures OthersPrintNothing(s, s', t)
  {
  }

  lemma RunBegins(s: System, signal: bool, run: seq<bool>, s': System)
    requires HasRunning(s) && IsRun(Step(s, signal), run, s')
    ensures IsRun(s, [signal] + run, s')
  {
    assert ([signal] + run)[1..] == run;
  }

  /** A thread that yields without a signal goes on running, and the queues stay as they are. */
  lemma NoSignalNoSwitch(s: System)
    requires HasRunning(s) && Segment(s).1.Yields?
    ensures var s' := Step(s, false);
            && s'.q == s.q.(owner := s'.q.owner) && HasRunning(s') && Running(s') == Running(s)
            && s'.exited == s.exited && s'.blocked == s.blocked && s'.handed == s.handed
            && OthersPrintNothing(s, s', Running(s))
  {
    SegmentKeeps(s);
  }

  lemma NextTurn(s: System)
    requires Inv(s) && HasRunning(s) && !s.tcbs[Running(s)].kind.Bank? && Segment(s).1.Yields?
    ensures var t, s' := Running(s), Step(s, false);
            && Inv(s') && HasRunning(s') && Running(s') == t
            && s'.tcbs[t].kind == s.tcbs[t].kind && s'.tcbs[t].arg == s.tcbs[t].arg
            && 0 <= Segments(s', t) == Segments(s, t) - 1 && OthersPrintNothing(s, s', t)
  {
    var t, s' := Running(s), Step(s, false);
    InvStep(s, false);
    StepKeepsArgs(s, false);
    LoopSegmentIsRun(s, false);
    NoSignalNoSwitch(s);
    assert OutputFits(s'.tcbs[t], s'.printed[t], t in s'.exited);
  }

  /**
   A fibonacci or factorial thread that nobody interrupts prints the rest of its numbers in a row and
   exits, while nobody else prints anything.
   */
  lemma {:induction false} UninterruptedThreadFinishes(s: System) returns (run: seq<bool>, s': System)
    requires Inv(s) && HasRunning(s) && !s.tcbs[Running(s)].kind.Bank?
    ensures IsRun(s, run, s') && |run| == Segments(s, Running(s)) && forall j :: 0 <= j < |run| ==> !run[j]
    ensures var t := Running(s);
            && t in s'.exited && t in s'.printed
            && s'.printed[t] == Expected(s.tcbs[t].kind, s.tcbs[t].arg)
            && OthersPrintNothing(s, s', t)
    decreases Segments(s, Running(s))
  {
    var next := Step(s, false);
    if Segment(s).1.Yields? {
      NextTurn(s);
      var rest;
      rest, s' := UninterruptedThreadFinishes(next);
      StillNothing(s, next, s', Running(s));
      RunBegins(s, false, rest, s');
      run := [false] + rest;
    } else {
      LastSegment(s);
      RunBegins(s, false, [], next);
      run, s' := [false], next;
      assert [false] + [] == run;
    }
  }

  lemma LastSegment(s: System)
    requires Inv(s) && HasRunning(s) && !s.tcbs[Running(s)].kind.Bank? && !Segment(s).1.Yields?
    ensures var t, s' := Running(s), Step(s, false);
            && t in s'.exited && t in s'.printed && Segments(s, t) == 1
            && s'.printed[t] == Expected(s.tcbs[t].kind, s.tcbs[t].arg)
            && OthersPrintNothing(s, s', t)
  {
    var t := Running(s);
    assert t in s.q.rq && OutputFits(s.tcbs[t], s.printed[t], false);
    TurnFits(s.tcbs[t], s.printed[t]);
    SegmentKeeps(s);
    EnterKeeps(Segment(s).0, ByExit);
  }

  // ---------------------------------------------------------------------------------------------
  // Fairness

  function IndexOf(xs: seq<int>, x: int): (k: nat)
    requires x in xs
    ensures k < |xs| && xs[k] == x
  {
    if xs[0] == x then 0 else 1 + IndexOf(xs[1..], x)
  }

  /** How many places the scheduler has to advance before t runs. */
  function Distance(q: Queues, t: int): (d: nat)
    requires t in q.rq && q.cur < |q.rq|
  {
    var k := IndexOf(q.rq, t);
    if q.cur <= k then k - q.cur else k + |q.rq| - q.cur
  }

  lemma SignalBringsNearer(q: Queues, t: int)
    requires Distinct(q.rq) && q.cur < |q.rq| && t in q.rq && t != q.rq[q.cur] && !HandsOff(q)
    ensures var q' := Dispatch(q, BySignal);
            q'.cur < |q'.rq| && t in q'.rq && Distance(q', t) == Distance(q, t) - 1
  {
  }

  /** A thread at index k' of the queue that the running thread has left is no farther than before. */
  lemma RemovalBringsNoFarther(rq: seq<int>, cur: nat, t: int)
    requires Distinct(rq) && cur < |rq| && t in rq && t != rq[cur]
    ensures var rq' := Removed(rq, cur); var cur' := Wrapped(cur, |rq'|);
            && cur' < |rq'| && t in rq'
            && Distance(Queues(rq', cur', [], FREE), t) <= Distance(Queues(rq, cur, [], FREE), t)
  {
    RemovedKeepsOthers(rq, cur);
    var rq' := Removed(rq, cur);
    var k, k' := IndexOf(rq, t), IndexOf(rq', t);
    assert rq'[if k == |rq| - 1 then cur else k] == t;
    assert k' == if k == |rq| - 1 then cur else k;
  }

  /** With a hand-off the new owner takes the leaver's place, so nobody else moves. */
  lemma HandOffMovesNobody(q: Queues, t: int)
    requires Distinct(q.rq) && q.cur < |q.rq| && t in q.rq && t != q.rq[q.cur] && HandsOff(q)
    requires forall u :: u in q.rq ==> u !in q.wq
    ensures var q' := Dispatch(q, ByExit);
            q'.cur == q.cur && q'.rq == q.rq[q.cur := q.wq[0]] && t in q'.rq && IndexOf(q'.rq, t) == IndexOf(q.rq, t)
  {
    var q' := Dispatch(q, ByExit);
    assert q'.rq == q.rq[q.cur := q.wq[0]];
    assert q.wq[0] in q.wq;
    var k := IndexOf(q.rq, t);
    assert q'.rq[k] == t;
    var k' := IndexOf(q'.rq, t);
    assert k' != q.cur ==> q.rq[k'] == t;
  }

  lemma LeavingBringsNoFarther(q: Queues, e: Entry, t: int)
    requires Distinct(q.rq) && (forall u :: u in q.rq ==> u !in q.wq)
    requires q.cur < |q.rq| && t in q.rq && t != q.rq[q.cur] && (e.ByExit? || (e.ByBlock? && !HandsOff(q)))
    ensures var q' := Dispatch(q, e);
            q'.cur < |q'.rq| && t in q'.rq && Distance(q', t) <= Distance(q, t)
  {
    if HandsOff(q) {
      HandOffMovesNobody(q, t);
    } else {
      RemovalBringsNoFarther(q.rq, q.cur, t);
    }
  }

  /** Thread t is not chosen in any of the states of the run. */
  ghost predicate NeverRuns(s: System, run: seq<bool>, t: int)
    decreases |run|
  {
    HasRunning(s) ==> Running(s) != t && (run != [] ==> NeverRuns(Step(s, run[0]), run[1..], t))
  }

  /** How often the run switches threads because of a signal. */
  function Signals(s: System, run: seq<bool>): nat
    decreases |run|
  {
    if run == [] || !HasRunning(s) then 0
    else (if Segment(s).1.Yields? && run[0] then 1 else 0) + Signals(Step(s, run[0]), run[1..])
  }

  /** How often the run enters the scheduler. */
  function Entries(s: System, run: seq<bool>): nat
    decreases |run|
  {
    if run == [] || !HasRunning(s) then 0
    else (if Segment(s).1.Yields? && !run[0] then 0 else 1) + Entries(Step(s, run[0]), run[1..])
  }

  lemma StepBringsNoFarther(s: System, signal: bool, t: int)
    requires Inv(s) && HasRunning(s) && t in s.q.rq && Running(s) != t
    ensures var s' := Step(s, signal);
            && s'.q.cur < |s'.q.rq| && t in s'.q.rq
            && Distance(s'.q, t) + (if Segment(s).1.Yields? && signal then 1 else 0) <= Distance(s.q, t)
  {
    SegmentKeeps(s);
    var (s1, outcome) := Segment(s);
    match outcome
    case Yields =>
      YieldKeepsLock(s, signal);
      SignalBringsNearer(s1.q, t);
    case Blocks =>
      BlockKeepsLock(s, signal);
      LeavingBringsNoFarther(s1.q, ByBlock, t);
    case Exits => LeavingBringsNoFarther(s1.q, ByExit, t);
  }

  /** Every entry of the scheduler is by a signal, by a block or by an exit. */
  lemma EntriesCounted(s: System, signal: bool)
    requires HasRunning(s)
    ensures var s' := Step(s, signal);
            |s'.blocked| - |s.blocked| + |s'.exited| - |s.exited| == if Segment(s).1.Yields? then 0 else 1
  {
    SegmentKeeps(s);
  }

  /**
   Bounded fairness: while a ready thread waits for its turn, the scheduler is entered at most its
   circular distance from the running thread plus the number of threads that block or exit meanwhile.
   */
  lemma {:induction false} WaitIsBounded(s: System, run: seq<bool>, s': System, t: int)
    requires Inv(s) && HasRunning(s) && IsRun(s, run, s')
    requires t in s.q.rq && NeverRuns(s, run, t)
    ensures s'.q.cur < |s'.q.rq| && t in s'.q.rq
    ensures Signals(s, run) + Distance(s'.q, t) <= Distance(s.q, t)
    ensures Entries(s, run) == Signals(s, run) + |s'.blocked| - |s.blocked| + |s'.exited| - |s.exited|
    decreases |run|
  {
    if run != [] {
      var s1 := Step(s, run[0]);
      InvStep(s, run[0]);
      StepBringsNoFarther(s, run[0], t);
      EntriesCounted(s, run[0]);
      CurrentIsLive(s1);
      WaitIsBounded(s1, run[1..], s', t);
    }
  }

  /** The bound for every reachable state. */
  lemma FairScheduling(s0: System, s: System, run: seq<bool>, s': System, t: int)
    requires Reachable(s0, s) && HasRunning(s) && IsRun(s, run, s')
    requires t in s.q.rq && NeverRuns(s, run, t)
    ensures Entries(s, run) <= Distance(s.q, t) + |s'.blocked| - |s.blocked| + |s'.exited| - |s.exited|
  {
    ReachableInv(s0, s);
    WaitIsBounded(s, run, s', t);
  }
}
