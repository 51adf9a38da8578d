/**
 What every signal schedule keeps: the queues partition the threads, the lock protects the bank and
 goes to waiting threads in order, and the output of each thread does not depend on the schedule.
 */
module UserThreadsSafety {
  import opened UserThreads

  // ---------------------------------------------------------------------------------------------
  // The queues partition the threads

  ghost predicate QueueInv(s: System) {
    && Distinct(s.q.rq) && Distinct(s.q.wq) && Distinct(s.exited)
    && (forall t :: t in s.q.rq ==> t !in s.q.wq && t !in s.exited)
    && (forall t :: t in s.q.wq ==> t !in s.exited)
    && (forall t :: t in s.tcbs <==> t in s.q.rq || t in s.q.wq || t in s.exited)
    && (forall t :: t in s.tcbs ==> t >= 0 && t in s.printed)
    && (if s.q.rq == [] then s.q.wq == [] else s.q.cur < |s.q.rq|)
  }

  lemma RemovedKeepsOthers(rq: seq<int>, cur: nat)
    requires Distinct(rq) && cur < |rq|
    ensures Distinct(Removed(rq, cur))
    ensures forall t :: t in Removed(rq, cur) <==> t in rq && t != rq[cur]
  {
    var r := Removed(rq, cur);
    forall t | t in rq && t != rq[cur] ensures t in r {
      var k :| 0 <= k < |rq| && rq[k] == t;
      assert r[if k == |rq| - 1 then cur else k] == t;
    }
  }

  lemma HandOffKeepsOthers(q: Queues)
    requires Distinct(q.rq) && Distinct(q.wq) && forall t :: t in q.rq ==> t !in q.wq
    ensures var h := HandOff(q);
            && Distinct(h.rq) && Distinct(h.wq)
            && (forall t :: t in h.rq <==> t in q.rq || (HandsOff(q) && t == q.wq[0]))
            && (forall t :: t in h.wq <==> t in q.wq && !(HandsOff(q) && t == q.wq[0]))
  {
    if HandsOff(q) {
      assert q.wq == [q.wq[0]] + q.wq[1..];
      assert q.wq[0] in q.wq;
    }
  }

  // ---------------------------------------------------------------------------------------------
  // The lock

  ghost predicate LockInv(s: System) {
    && (forall t :: t in s.q.wq ==> t in s.tcbs && s.tcbs[t].kind.Bank? && s.tcbs[t].pc.Fresh?)
    && (s.q.owner == FREE ==> s.q.wq == [])
    && (s.q.owner != FREE ==> s.q.owner in s.q.rq && s.q.owner in s.tcbs && s.tcbs[s.q.owner].kind.Bank?)
    && (s.q.owner != FREE && s.tcbs[s.q.owner].pc.Fresh? ==> s.q.cur < |s.q.rq| && s.q.rq[s.q.cur] == s.q.owner)
    && (forall t :: t in s.q.rq ==> t in s.tcbs && PcFits(s.tcbs[t]))
    && (forall t :: t in s.q.rq && s.tcbs[t].kind.Bank? && !s.tcbs[t].pc.Fresh? ==> t == s.q.owner)
  }

  predicate PcFits(c: Tcb) {
    c.pc.Fresh? || if c.kind.Bank? then c.pc.Acquired? || c.pc.Applied? else c.pc.Looping?
  }

  ghost predicate Core(s: System) {
    QueueInv(s) && LockInv(s)
  }

  /** A segment touches the running thread and the lock owner, and no queue. */
  lemma SegmentKeeps(s: System)
    requires HasRunning(s)
    ensures var s1 := Segment(s).0; var t := Running(s);
            && s1.q == s.q.(owner := s1.q.owner) && s1.exited == s.exited && s1.handed == s.handed
            && s1.tcbs.Keys == s.tcbs.Keys && s1.printed.Keys == s.printed.Keys
            && (forall u :: u in s.tcbs ==> s1.tcbs[u].kind == s.tcbs[u].kind && s1.tcbs[u].arg == s.tcbs[u].arg)
            && (forall u :: u in s.tcbs && u != t ==> s1.tcbs[u] == s.tcbs[u])
            && (forall u :: u in s.printed && u != t ==> s1.printed[u] == s.printed[u])
  {
  }

  /** What a thread leaves behind: when it is about to leave the ready queue, somebody else can run. */
  ghost predicate CanEnter(s: System, e: Entry) {
    && QueueInv(s) && s.q.cur < |s.q.rq|
    && (e.ByBlock? ==> s.q.owner != FREE && |s.q.rq| > 1)
    && (e.ByExit? && |s.q.rq| == 1 ==> s.q.wq == [] || s.q.owner == FREE)
  }

  lemma EnterKeepsQueues(s: System, e: Entry)
    requires CanEnter(s, e)
    ensures QueueInv(Enter(s, e))
  {
    HandOffKeepsOthers(s.q);
    var h := HandOff(s.q);
    RemovedKeepsOthers(h.rq, h.cur);
    assert h.rq[h.cur] in h.rq && s.q.rq[s.q.cur] in s.q.rq;
  }

  /** The lock after a segment that ends at a yield. */
  lemma YieldKeepsLock(s: System, signal: bool)
    requires Core(s) && HasRunning(s) && Segment(s).1.Yields?
    ensures LockInv(Step(s, signal)) && !HandsOff(Segment(s).0.q)
  {
    assert Running(s) in s.q.rq;
    if s.tcbs[Running(s)].kind.Bank? {
      BankYieldKeepsLock(s, signal);
    } else {
      LoopYieldKeepsLock(s, signal);
    }
  }

  lemma LoopYieldKeepsLock(s: System, signal: bool)
    requires Core(s) && HasRunning(s) && Segment(s).1.Yields? && !s.tcbs[Running(s)].kind.Bank?
    ensures LockInv(Step(s, signal)) && !HandsOff(Segment(s).0.q)
  {
    assert Running(s) in s.q.rq && Running(s) !in s.q.wq && Running(s) != s.q.owner;
  }

  lemma BankYieldKeepsLock(s: System, signal: bool)
    requires Core(s) && HasRunning(s) && Segment(s).1.Yields? && s.tcbs[Running(s)].kind.Bank?
    ensures LockInv(Step(s, signal)) && !HandsOff(Segment(s).0.q)
  {
    assert Running(s) in s.q.rq && Running(s) !in s.q.wq;
    assert Segment(s).0.q.owner == Running(s);
  }

  lemma BlockKeepsLock(s: System, signal: bool)
    requires Core(s) && HasRunning(s) && Segment(s).1.Blocks?
    ensures LockInv(Step(s, signal)) && !HandsOff(Segment(s).0.q)
    ensures CanEnter(Segment(s).0, ByBlock)
  {
    RemovedKeepsOthers(s.q.rq, s.q.cur);
    assert Running(s) in s.q.rq;
  }

  /** A loop thread holds no lock, so its exit hands nothing over. */
  lemma LoopExitKeepsLock(s: System, signal: bool)
    requires Core(s) && HasRunning(s) && Segment(s).1.Exits? && !s.tcbs[Running(s)].kind.Bank?
    ensures LockInv(Step(s, signal))
    ensures CanEnter(Segment(s).0, ByExit)
  {
    RemovedKeepsOthers(s.q.rq, s.q.cur);
    assert Running(s) in s.q.rq && s.q.owner != Running(s);
    assert !HandsOff(Segment(s).0.q);
    if |s.q.rq| == 1 {
      assert s.q.rq == [Running(s)];
    }
  }

  /** What the exit of a bank thread does: it is the owner, and the first waiter, if any, takes its place. */
  lemma BankExitEffect(s: System, signal: bool)
    requires Core(s) && HasRunning(s) && Segment(s).1.Exits? && s.tcbs[Running(s)].kind.Bank?
    ensures s.q.owner == Running(s) && Segment(s).0 == s.(q := s.q.(owner := FREE))
    ensures var s' := Step(s, signal);
            && s'.tcbs == s.tcbs
            && if s.q.wq == [] then s'.q.wq == [] && s'.q.owner == FREE && s'.q.rq == Removed(s.q.rq, s.q.cur)
               else && s'.q.wq == s.q.wq[1..] && s'.q.owner == s.q.wq[0] && s'.q.cur == s.q.cur
                    && s'.q.rq == s.q.rq[s.q.cur := s.q.wq[0]]
  {
    assert Running(s) in s.q.rq;
    if s.q.wq != [] {
      assert Removed(s.q.rq + [s.q.wq[0]], s.q.cur) == s.q.rq[s.q.cur := s.q.wq[0]];
    }
  }

  lemma BankExitKeepsLock(s: System, signal: bool)
    requires Core(s) && HasRunning(s) && Segment(s).1.Exits? && s.tcbs[Running(s)].kind.Bank?
    ensures LockInv(Step(s, signal))
    ensures CanEnter(Segment(s).0, ByExit)
  {
    BankExitEffect(s, signal);
    RemovedKeepsOthers(s.q.rq, s.q.cur);
    if s.q.wq != [] {
      assert s.q.wq[0] in s.q.wq;
      assert Step(s, signal).q.rq[s.q.cur] == s.q.wq[0];
      assert forall i :: 0 <= i < |s.q.rq| && i != s.q.cur ==> s.q.rq[i] != Running(s);
    }
  }

  lemma ExitKeepsLock(s: System, signal: bool)
    requires Core(s) && HasRunning(s) && Segment(s).1.Exits?
    ensures LockInv(Step(s, signal))
    ensures CanEnter(Segment(s).0, ByExit)
  {
    if s.tcbs[Running(s)].kind.Bank? {
      BankExitKeepsLock(s, signal);
    } else {
      LoopExitKeepsLock(s, signal);
    }
  }

  lemma StepKeepsOther(s: System, signal: bool, u: int)
    requires HasRunning(s) && u != Running(s)
    ensures var s' := Step(s, signal);
            && (u in s'.tcbs <==> u in s.tcbs) && (u in s.tcbs ==> s'.tcbs[u] == s.tcbs[u])
            && (u in s'.printed <==> u in s.printed) && (u in s.printed ==> s'.printed[u] == s.printed[u])
            && (u in s'.exited <==> u in s.exited) && (u in s'.blocked <==> u in s.blocked)
  {
    SegmentKeeps(s);
    var (s1, outcome) := Segment(s);
    assert s1.blocked == if outcome.Blocks? then s.blocked + [Running(s)] else s.blocked;
    EnterKeeps(s1, BySignal);
    EnterKeeps(s1, ByBlock);
    EnterKeeps(s1, ByExit);
  }

  lemma EnterKeeps(s: System, e: Entry)
    requires s.q.cur < |s.q.rq|
    ensures var s' := Enter(s, e);
            && s'.tcbs == s.tcbs && s'.printed == s.printed && s'.blocked == s.blocked && s'.balance == s.balance
            && s'.exited == if e.ByExit? then s.exited + [s.q.rq[s.q.cur]] else s.exited
  {
  }

  lemma CoreStep(s: System, signal: bool)
    requires Core(s) && HasRunning(s)
    ensures Core(Step(s, signal))
  {
    var (s1, outcome) := Segment(s);
    SegmentKeeps(s);
    match outcome
    case Yields =>
      YieldKeepsLock(s, signal);
      EnterKeepsQueues(s1, BySignal);
    case Blocks =>
      BlockKeepsLock(s, signal);
      EnterKeepsQueues(s1, ByBlock);
    case Exits =>
      ExitKeepsLock(s, signal);
      EnterKeepsQueues(s1, ByExit);
  }

  // ---------------------------------------------------------------------------------------------
  // The order of blocking and of hand-offs

  ghost predicate FifoInv(s: System) {
    && s.blocked == s.handed + s.q.wq
    && Distinct(s.blocked)
    && (forall t :: t in s.q.rq && t in s.tcbs && s.tcbs[t].pc.Fresh? && t != s.q.owner ==> t !in s.blocked)
  }

  lemma YieldKeepsFifo(s: System, signal: bool)
    requires Core(s) && FifoInv(s) && HasRunning(s) && Segment(s).1.Yields?
    ensures FifoInv(Step(s, signal))
  {
    YieldKeepsLock(s, signal);
    assert Running(s) in s.q.rq;
  }

  /** What a blocking step does. */
  lemma BlockEffect(s: System, signal: bool)
    requires Core(s) && HasRunning(s) && Segment(s).1.Blocks?
    ensures var s' := Step(s, signal);
            && s'.tcbs == s.tcbs && s'.handed == s.handed && s'.blocked == s.blocked + [Running(s)]
            && s'.q.rq == Removed(s.q.rq, s.q.cur) && s'.q.wq == s.q.wq + [Running(s)] && s'.q.owner == s.q.owner
            && Running(s) in s.q.rq && s.tcbs[Running(s)].pc.Fresh? && Running(s) != s.q.owner
  {
    BlockKeepsLock(s, signal);
  }

  lemma BlockKeepsFifo(s: System, signal: bool)
    requires Core(s) && FifoInv(s) && HasRunning(s) && Segment(s).1.Blocks?
    ensures FifoInv(Step(s, signal))
  {
    BlockEffect(s, signal);
    RemovedKeepsOthers(s.q.rq, s.q.cur);
    assert s.handed + (s.q.wq + [Running(s)]) == s.blocked + [Running(s)];
  }

  lemma ExitKeepsFifo(s: System, signal: bool)
    requires Core(s) && FifoInv(s) && HasRunning(s) && Segment(s).1.Exits?
    ensures FifoInv(Step(s, signal))
  {
    SegmentKeeps(s);
    var s1 := Segment(s).0;
    HandOffKeepsOthers(s1.q);
    var h := HandOff(s1.q);
    RemovedKeepsOthers(h.rq, h.cur);
    assert Running(s) in s.q.rq;
    assert s1.blocked == s.blocked;
    if HandsOff(s1.q) {
      assert (s.handed + [s.q.wq[0]]) + s.q.wq[1..] == s.handed + s.q.wq;
    }
  }

  lemma FifoStep(s: System, signal: bool)
    requires Core(s) && FifoInv(s) && HasRunning(s)
    ensures FifoInv(Step(s, signal))
  {
    match Segment(s).1
    case Yields => YieldKeepsFifo(s, signal);
    case Blocks => BlockKeepsFifo(s, signal);
    case Exits => ExitKeepsFifo(s, signal);
  }

  // ---------------------------------------------------------------------------------------------
  // Serializability of the bank operations

  function Args(s: System): map<int, int> {
    map t | t in s.tcbs :: s.tcbs[t].arg
  }

  /** The balance after performing the operations of the given threads one at a time. */
  function Serial(args: map<int, int>, order: seq<int>): int {
    if order == [] then INITIAL_BALANCE
    else
      var last := order[|order| - 1];
      Applying(Serial(args, order[..|order| - 1]), if last in args then args[last] else 0)
  }

  /** The threads whose operation is done: all that were granted the lock, but for an owner before line 66. */
  function Settled(s: System): seq<int> {
    if s.q.owner == FREE || s.grants == [] || (s.q.owner in s.tcbs && s.tcbs[s.q.owner].pc.Applied?) then s.grants
    else s.grants[..|s.grants| - 1]
  }

  ghost predicate GrantInv(s: System) {
    && Distinct(s.grants)
    && (forall t :: t in s.grants <==> t in s.tcbs && s.tcbs[t].kind.Bank? && (t == s.q.owner || t in s.exited))
    && (s.q.owner != FREE ==> s.grants != [] && s.grants[|s.grants| - 1] == s.q.owner)
  }

  ghost predicate BalanceInv(s: System) {
    s.balance == Serial(Args(s), Settled(s))
  }

  /** A thread other than a bank thread, or one that blocks, changes nothing about the bank. */
  lemma OthersKeepBank(s: System, signal: bool)
    requires Core(s) && HasRunning(s)
    requires !s.tcbs[Running(s)].kind.Bank? || Segment(s).1.Blocks?
    ensures var s' := Step(s, signal);
            && s'.q.owner == s.q.owner && s'.grants == s.grants && s'.balance == s.balance
            && s'.tcbs.Keys == s.tcbs.Keys
            && (forall t :: t in s.tcbs && s.tcbs[t].kind.Bank? ==> s'.tcbs[t] == s.tcbs[t])
            && (forall t :: t in s.tcbs && s.tcbs[t].kind.Bank? ==> (t in s'.exited <==> t in s.exited))
  {
    SegmentKeeps(s);
    assert Running(s) in s.q.rq;
    assert !HandsOff(Segment(s).0.q);
  }

  lemma BankKeepsGrants(s: System, signal: bool)
    requires Core(s) && GrantInv(s) && HasRunning(s)
    requires s.tcbs[Running(s)].kind.Bank? && Segment(s).1.Yields?
    ensures GrantInv(Step(s, signal))
  {
    assert Running(s) in s.q.rq;
    assert !HandsOff(Segment(s).0.q);
    assert s.q.owner == FREE ==> Running(s) !in s.grants;
  }

  lemma ReleaseKeepsGrants(s: System, signal: bool)
    requires Core(s) && GrantInv(s) && HasRunning(s)
    requires s.tcbs[Running(s)].kind.Bank? && s.tcbs[Running(s)].pc.Applied?
    ensures GrantInv(Step(s, signal))
  {
    assert Running(s) in s.q.rq && s.q.owner == Running(s);
    assert s.q.wq != [] ==> s.q.wq[0] in s.q.wq && s.q.wq[0] !in s.grants;
  }

  lemma StepKeepsArgs(s: System, signal: bool)
    requires HasRunning(s)
    ensures var s' := Step(s, signal);
            && s'.tcbs.Keys == s.tcbs.Keys
            && (forall t :: t in s.tcbs ==> s'.tcbs[t].kind == s.tcbs[t].kind && s'.tcbs[t].arg == s.tcbs[t].arg)
            && Args(s') == Args(s)
  {
    SegmentKeeps(s);
  }

  lemma AcquireKeepsBalance(s: System, signal: bool)
    requires Core(s) && GrantInv(s) && BalanceInv(s) && HasRunning(s)
    requires s.tcbs[Running(s)].kind.Bank? && s.tcbs[Running(s)].pc.Fresh? && !Segment(s).1.Blocks?
    ensures BalanceInv(Step(s, signal))
  {
    var s1, s' := Segment(s).0, Step(s, signal);
    StepKeepsArgs(s, signal);
    assert s'.balance == s.balance && s'.grants == s1.grants && s'.q.owner == Running(s);
    assert s.q.owner == FREE ==> s1.grants[..|s1.grants| - 1] == s.grants;
    assert Settled(s') == Settled(s);
  }

  lemma ApplyKeepsBalance(s: System, signal: bool)
    requires Core(s) && GrantInv(s) && BalanceInv(s) && HasRunning(s)
    requires s.tcbs[Running(s)].kind.Bank? && s.tcbs[Running(s)].pc.Acquired?
    ensures BalanceInv(Step(s, signal))
  {
    StepKeepsArgs(s, signal);
    assert Running(s) in s.q.rq && s.q.owner == Running(s);
    assert Settled(Step(s, signal)) == s.grants && s.grants[|s.grants| - 1] == Running(s);
  }

  lemma ReleaseKeepsBalance(s: System, signal: bool)
    requires Core(s) && GrantInv(s) && BalanceInv(s) && HasRunning(s)
    requires s.tcbs[Running(s)].kind.Bank? && s.tcbs[Running(s)].pc.Applied?
    ensures BalanceInv(Step(s, signal))
  {
    var s1, s' := Segment(s).0, Step(s, signal);
    StepKeepsArgs(s, signal);
    assert Running(s) in s.q.rq && s.q.owner == Running(s);
    assert s.q.wq != [] ==> s.q.wq[0] in s.q.wq;
    assert HandsOff(s1.q) ==> s'.grants[..|s'.grants| - 1] == s.grants;
    assert Settled(s') == s.grants == Settled(s);
  }

  ghost predicate SerialInv(s: System) {
    GrantInv(s) && BalanceInv(s)
  }

  lemma SerialStep(s: System, signal: bool)
    requires Core(s) && SerialInv(s) && HasRunning(s)
    ensures SerialInv(Step(s, signal))
  {
    var c := s.tcbs[Running(s)];
    assert Running(s) in s.q.rq;
    if !c.kind.Bank? || Segment(s).1.Blocks? {
      OthersKeepBank(s, signal);
      StepKeepsArgs(s, signal);
    } else if c.pc.Fresh? {
      BankKeepsGrants(s, signal);
      AcquireKeepsBalance(s, signal);
    } else if c.pc.Acquired? {
      BankKeepsGrants(s, signal);
      ApplyKeepsBalance(s, signal);
    } else {
      ReleaseKeepsGrants(s, signal);
      ReleaseKeepsBalance(s, signal);
    }
  }

  lemma {:induction false} SerialNeverNegative(args: map<int, int>, order: seq<int>)
    ensures Serial(args, order) >= 0
  {
    if order != [] {
      SerialNeverNegative(args, order[..|order| - 1]);
    }
  }

  // ---------------------------------------------------------------------------------------------
  // The output of fibonacci and factorial

  function Fib(n: nat): nat {
    if n == 0 then 0 else if n == 1 then 1 else Fib(n - 1) + Fib(n - 2)
  }

  function Fact(n: nat): nat {
    if n == 0 then 1 else n * Fact(n - 1)
  }

  function Value(kind: Kind, n: nat): nat {
    if kind.Factorial? then Fact(n) else Fib(n)
  }

  /** The first n numbers a thread of this kind has to print. */
  function Expected(kind: Kind, n: nat): (r: seq<int>)
    ensures |r| == n && forall k :: 0 <= k < n ==> r[k] == Value(kind, k + 1)
  {
    seq(n, k requires 0 <= k < n => Value(kind, k + 1))
  }

  ghost predicate OutputInv(s: System) {
    forall t :: t in s.tcbs && !s.tcbs[t].kind.Bank? ==>
                  t in s.printed && OutputFits(s.tcbs[t], s.printed[t], t in s.exited)
  }

  ghost predicate OutputFits(c: Tcb, printed: seq<int>, exited: bool) {
    if c.pc.Fresh? then printed == [] && c.arg > 0 && !exited
    else
      && 1 <= c.i <= c.arg && (exited <==> c.i == c.arg)
      && printed == Expected(c.kind, c.i)
      && c.y == Value(c.kind, c.i)
      && (c.kind.Fibonacci? ==> c.x == if c.i == 1 then 1 else Fib(c.i - 1))
  }

  lemma TurnFits(c: Tcb, printed: seq<int>)
    requires !c.kind.Bank? && PcFits(c) && OutputFits(c, printed, false)
    ensures var c' := if c.kind.Fibonacci? then FibonacciTurn(c) else FactorialTurn(c);
            OutputFits(c', printed + [c'.y], c'.i == c'.arg)
  {
    var c' := if c.kind.Fibonacci? then FibonacciTurn(c) else FactorialTurn(c);
    assert Value(c.kind, c'.i) == c'.y;
    assert printed + [c'.y] == Expected(c.kind, c'.i);
  }

  lemma OutputStep(s: System, signal: bool)
    requires Core(s) && OutputInv(s) && HasRunning(s)
    ensures OutputInv(Step(s, signal))
  {
    var t, s' := Running(s), Step(s, signal);
    assert t in s.q.rq;
    forall u | u in s'.tcbs && !s'.tcbs[u].kind.Bank?
      ensures u in s'.printed && OutputFits(s'.tcbs[u], s'.printed[u], u in s'.exited)
    {
      RunningOutput(s, signal);
      if u != t {
        StepKeepsOther(s, signal, u);
      }
    }
  }

  lemma RunningOutput(s: System, signal: bool)
    requires Core(s) && OutputInv(s) && HasRunning(s)
    ensures var t, s' := Running(s), Step(s, signal);
            && t in s'.tcbs && s'.tcbs[t].kind == s.tcbs[t].kind
            && (!s.tcbs[t].kind.Bank? ==> t in s'.printed && OutputFits(s'.tcbs[t], s'.printed[t], t in s'.exited))
  {
    var t := Running(s);
    assert t in s.q.rq;
    if !s.tcbs[t].kind.Bank? {
      TurnFits(s.tcbs[t], s.printed[t]);
    }
  }

  // ---------------------------------------------------------------------------------------------
  // Runs

  ghost predicate Inv(s: System) {
    Core(s) && FifoInv(s) && SerialInv(s) && OutputInv(s)
  }

  lemma InvStep(s: System, signal: bool)
    requires Inv(s) && HasRunning(s)
    ensures Inv(Step(s, signal))
  {
    CoreStep(s, signal);
    FifoStep(s, signal);
    SerialStep(s, signal);
    OutputStep(s, signal);
  }

  lemma {:induction false} InvAlongRun(s: System, run: seq<bool>, s': System)
    requires Inv(s) && IsRun(s, run, s')
    ensures Inv(s') && Args(s') == Args(s)
    ensures s'.tcbs.Keys == s.tcbs.Keys && forall t :: t in s.tcbs ==> s'.tcbs[t].kind == s.tcbs[t].kind
    ensures |s'.q.rq| + |s'.q.wq| + |s'.exited| == |s.q.rq| + |s.q.wq| + |s.exited|
    decreases |run|
  {
    if run != [] {
      InvStep(s, run[0]);
      StepKeepsArgs(s, run[0]);
      StepKeepsCount(s, run[0]);
      InvAlongRun(Step(s, run[0]), run[1..], s');
    }
  }

  lemma StepKeepsCount(s: System, signal: bool)
    requires HasRunning(s)
    ensures var s' := Step(s, signal);
            |s'.q.rq| + |s'.q.wq| + |s'.exited| == |s.q.rq| + |s.q.wq| + |s.exited|
  {
    SegmentKeeps(s);
  }

  lemma ReachableInv(s0: System, s: System)
    requires Reachable(s0, s)
    ensures Inv(s) && Args(s) == Args(s0)
    ensures s.tcbs.Keys == s0.tcbs.Keys && forall t :: t in s.tcbs ==> s.tcbs[t].kind == s0.tcbs[t].kind
    ensures |s.q.rq| + |s.q.wq| + |s.exited| == |s0.q.rq|
  {
    assert Inv(s0);
    var run :| IsRun(s0, run, s);
    InvAlongRun(s0, run, s);
  }
}
