/**
 The user-level threads of HW3: thread bodies, lock macros and scheduler.

 A thread's `jmp_buf` is replaced by a program counter naming the place its environment was saved:
 right after `thread_setup`, or at one of its calls of `thread_yield`. Signals are blocked except
 inside `thread_yield`, so execution is a sequence of segments, each running the current thread from
 its saved place to the next yield, to a blocking `lock`, or to its exit; at a yield the environment
 decides whether a signal is delivered. Numbers are unbounded.
 */
module UserThreads {

  const FREE := -1              // bank.lock_owner when nobody holds the lock
  const INITIAL_BALANCE := 500

  datatype Kind = Fibonacci | Factorial | Bank

  datatype Pc =
    | Fresh      // after thread_setup
    | Looping    // at the yield of fibonacci or factorial
    | Acquired   // at the first yield of bank_operation
    | Applied    // at the second yield of bank_operation

  datatype Tcb = Tcb(kind: Kind, arg: int, pc: Pc, i: int, x: int, y: int)

  // ---------------------------------------------------------------------------------------------
  // The scheduler

  /** The two queues hold thread ids; `cur` is rq_current. */
  datatype Queues = Queues(rq: seq<int>, cur: nat, wq: seq<int>, owner: int)

  /** How the scheduler is entered: setjmp returns 1, 2 or 3. */
  datatype Entry = BySignal | ByBlock | ByExit

  /** Lines 43-52: a free lock goes to the first waiting thread. */
  predicate HandsOff(q: Queues) {
    q.owner == FREE && q.wq != []
  }

  function HandOff(q: Queues): Queues {
    if HandsOff(q) then q.(rq := q.rq + [q.wq[0]], wq := q.wq[1..], owner := q.wq[0]) else q
  }

  /** Lines 58-59 and 64-65: the last ready thread takes the place of the running one. */
  function Removed(rq: seq<int>, cur: nat): (r: seq<int>)
    requires cur < |rq|
    ensures |r| == |rq| - 1
  {
    rq[cur := rq[|rq| - 1]][..|rq| - 1]
  }

  /** Lines 82-83. */
  function Wrapped(cur: nat, size: nat): nat {
    if cur == size then 0 else cur
  }

  /** One entry of the scheduler after the first. */
  function Dispatch(q: Queues, e: Entry): Queues
    requires q.cur < |q.rq|
  {
    var h := HandOff(q);
    match e
    case BySignal => h.(cur := if h.cur == |h.rq| - 1 then 0 else h.cur + 1)
    case ByBlock =>
      var rq := Removed(h.rq, h.cur);
      h.(rq := rq, wq := h.wq + [h.rq[h.cur]], cur := Wrapped(h.cur, |rq|))
    case ByExit =>
      var rq := Removed(h.rq, h.cur);
      h.(rq := rq, cur := Wrapped(h.cur, |rq|))
  }

  // ---------------------------------------------------------------------------------------------
  // The threads

  datatype System = System(
    tcbs: map<int, Tcb>,
    q: Queues,
    balance: int,
    printed: map<int, seq<int>>,  // the numbers each fibonacci or factorial thread has printed
    grants: seq<int>,             // history: threads in the order they became lock owner
    blocked: seq<int>,            // history: threads in the order they blocked in lock()
    handed: seq<int>,             // history: threads in the order the scheduler handed them the lock
    exited: seq<int>)             // history: threads in the order they exited

  predicate HasRunning(s: System) {
    s.q.cur < |s.q.rq| && s.q.rq[s.q.cur] in s.tcbs && s.q.rq[s.q.cur] in s.printed
  }

  /** The macro RUNNING. */
  function Running(s: System): int
    requires HasRunning(s)
  {
    s.q.rq[s.q.cur]
  }

  datatype Outcome = Yields | Blocks | Exits

  /** Lines 10-19 of fibonacci: one turn of the loop. */
  function FibonacciTurn(c: Tcb): Tcb {
    var i := if c.pc.Fresh? then 1 else c.i + 1;
    if i <= 2 then c.(pc := Looping, i := i, x := 1, y := 1)
    else c.(pc := Looping, i := i, x := c.y, y := c.x + c.y)
  }

  /** Lines 34-40 of factorial: one turn of the loop. */
  function FactorialTurn(c: Tcb): Tcb {
    var i := if c.pc.Fresh? then 1 else c.i + 1;
    c.(pc := Looping, i := i, y := if i <= 1 then 1 else c.y * i)
  }

  /** Lines 64-70: what one bank operation does to the balance. */
  function Applying(balance: int, arg: int): int {
    if arg > 0 || (arg <= 0 && balance >= -arg) then balance + arg else balance
  }

  function LoopSegment(s: System, c': Tcb): (System, Outcome)
    requires HasRunning(s)
  {
    var t := Running(s);
    (s.(tcbs := s.tcbs[t := c'], printed := s.printed[t := s.printed[t] + [c'.y]]),
     if c'.i == c'.arg then Exits else Yields)
  }

  function BankSegment(s: System): (System, Outcome)
    requires HasRunning(s)
  {
    var t := Running(s);
    var c := s.tcbs[t];
    match c.pc
    case Fresh =>
      if s.q.owner == FREE || s.q.owner == t then
        (s.(tcbs := s.tcbs[t := c.(pc := Acquired)], q := s.q.(owner := t),
            grants := if s.q.owner == FREE then s.grants + [t] else s.grants), Yields)
      else
        (s.(blocked := s.blocked + [t]), Blocks)
    case Acquired =>
      (s.(tcbs := s.tcbs[t := c.(pc := Applied)], balance := Applying(s.balance, c.arg)), Yields)
    case _ =>
      (s.(q := s.q.(owner := if s.q.owner == t then FREE else s.q.owner)), Exits)
  }

  /** The running thread's next segment. */
  function Segment(s: System): (System, Outcome)
    requires HasRunning(s)
  {
    var c := s.tcbs[Running(s)];
    match c.kind
    case Fibonacci => LoopSegment(s, FibonacciTurn(c))
    case Factorial => LoopSegment(s, FactorialTurn(c))
    case Bank => BankSegment(s)
  }

  /** Enter the scheduler, recording a hand-off. */
  function Enter(s: System, e: Entry): System
    requires s.q.cur < |s.q.rq|
  {
    var s' := s.(q := Dispatch(s.q, e),
                 exited := if e.ByExit? then s.exited + [s.q.rq[s.q.cur]] else s.exited);
    if HandsOff(s.q) then
      s'.(handed := s.handed + [s.q.wq[0]], grants := s.grants + [s.q.wq[0]])
    else
      s'
  }

  /** One segment and, unless it ends at a yield without a signal, one entry of the scheduler. */
  function Step(s: System, signal: bool): System
    requires HasRunning(s)
  {
    var (s', outcome) := Segment(s);
    match outcome
    case Yields => if signal then Enter(s', BySignal) else s'
    case Blocks => Enter(s', ByBlock)
    case Exits => Enter(s', ByExit)
  }

  /** The scheduler returns (lines 35 and 69). */
  predicate Done(s: System) {
    s.q.rq == [] && s.q.wq == []
  }

  /** Any threads with distinct non-negative ids, in the order thread_setup queued them. */
  ghost predicate Initial(s: System) {
    && Distinct(s.q.rq)
    && (forall t :: t in s.q.rq <==> t in s.tcbs)
    && (forall t :: t in s.tcbs ==>
          && t >= 0 && s.tcbs[t].pc.Fresh?
          && (!s.tcbs[t].kind.Bank? ==> s.tcbs[t].arg > 0)
          && t in s.printed && s.printed[t] == [])
    && s.q.cur == 0 && s.q.wq == [] && s.q.owner == FREE
    && s.balance == INITIAL_BALANCE
    && s.grants == s.blocked == s.handed == s.exited == []
  }

  ghost predicate Distinct(xs: seq<int>) {
    forall i, j :: 0 <= i < j < |xs| ==> xs[i] != xs[j]
  }

  /** The signal decisions `run` lead from s to s'. */
  ghost predicate IsRun(s: System, run: seq<bool>, s': System)
    decreases |run|
  {
    if run == [] then s == s'
    else HasRunning(s) && IsRun(Step(s, run[0]), run[1..], s')
  }

  ghost predicate Reachable(s0: System, s: System) {
    Initial(s0) && exists run :: IsRun(s0, run, s)
  }
}
