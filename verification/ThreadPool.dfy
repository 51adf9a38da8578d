/**
 The thread pool of HW4 as an interleaving transition system.

 Every worker and the main thread has a program counter; the shared state is the mutex, the
 condition variable (the set of sleeping workers), the task queue and the `finish` flag. Each
 transition is one access to shared state, so a run of this system is one sequentially consistent
 interleaving. Job `k` stands for the task allocated by the k-th call of `tpool_add`.
 */
module ThreadPool {

  /** Where a worker stands in `work`; the comment gives the line it is about to execute. */
  datatype Pc =
    | Locking             // 12: take the mutex
    | Testing             // 13: test the wait condition, mutex held
    | Sleepy              // 14: about to enter the wait, mutex held
    | Asleep              // 14: inside the wait
    | Relocking           // 14: woken, taking the mutex again
    | Choosing            // 16, 25: choose between a job and the exit, mutex held
    | Popped(job: nat)    // 20: release the mutex
    | Running(job: nat)   // 21: execute the job
    | Freeing(job: nat)   // 22: free the job
    | Announcing          // 23: broadcast
    | Leaving             // 27: release the mutex
    | Departing           // 28: broadcast
    | Exited              // 29

  /** Where the main thread stands in its calls of `tpool_add` and then `tpool_wait`. */
  datatype MainPc =
    | AddLocking          // 36
    | Linking             // 37-52
    | AddAnnouncing       // 53
    | AddUnlocking        // 54
    | SettingFinish       // 59
    | WaitAnnouncing      // 60
    | Joining(next: nat)  // 61-62
    | Returned            // 63

  datatype Holder = Unheld | HeldByMain | HeldByWorker(i: nat)

  datatype State = State(
    workers: seq<Pc>,
    main: MainPc,
    todo: nat,            // calls of tpool_add still to come, including one before its linking step
    added: nat,           // jobs linked so far
    holder: Holder,
    queue: seq<nat>,
    finish: bool,
    popped: seq<nat>,     // history: jobs in the order they left the queue
    executed: seq<nat>,   // history: jobs in the order line 21 ran them
    freed: seq<nat>)      // history: jobs in the order line 22 freed them

  /** A scheduling choice. `Spurious(i)` wakes worker i without any broadcast. */
  datatype Move = MainMove | WorkerMove(i: nat) | Spurious(i: nat)

  function BeforeAdd(todo: nat): MainPc {
    if todo == 0 then SettingFinish else AddLocking
  }

  /** A pool of n workers, and a main thread that will add k tasks and then wait. */
  function Init(n: nat, k: nat): State {
    State(seq(n, i => Locking), BeforeAdd(k), k, 0, Unheld, [], false, [], [], [])
  }

  /** pthread_cond_broadcast: every sleeping worker starts competing for the mutex. */
  function Wake(workers: seq<Pc>): (woken: seq<Pc>)
    ensures |woken| == |workers|
    ensures forall i :: 0 <= i < |woken| ==> !woken[i].Asleep?
    ensures forall i :: 0 <= i < |woken| && woken[i] != workers[i] ==> workers[i].Asleep? && woken[i].Relocking?
  {
    seq(|workers|, i requires 0 <= i < |workers| => if workers[i].Asleep? then Relocking else workers[i])
  }

  predicate Enabled(s: State, m: Move) {
    match m
    case MainMove => (
      match s.main
      case AddLocking => s.holder.Unheld?
      case Joining(next) => next < |s.workers| ==> s.workers[next].Exited?
      case Returned => false
      case _ => true)
    case WorkerMove(i) =>
      i < |s.workers| && (
        match s.workers[i]
        case Locking => s.holder.Unheld?
        case Relocking => s.holder.Unheld?
        case Asleep => false
        case Exited => false
        case _ => true)
    case Spurious(i) => i < |s.workers| && s.workers[i].Asleep?
  }

  function MainNext(s: State): State
    requires Enabled(s, MainMove)
  {
    match s.main
    case AddLocking => s.(main := Linking, holder := HeldByMain)
    case Linking =>
      s.(main := AddAnnouncing, queue := s.queue + [s.added], added := s.added + 1,
         todo := if s.todo == 0 then 0 else s.todo - 1)
    case AddAnnouncing => s.(main := AddUnlocking, workers := Wake(s.workers))
    case AddUnlocking => s.(main := BeforeAdd(s.todo), holder := Unheld)
    case SettingFinish => s.(main := WaitAnnouncing, finish := true)
    case WaitAnnouncing => s.(main := Joining(0), workers := Wake(s.workers))
    case Joining(next) => s.(main := if next < |s.workers| then Joining(next + 1) else Returned)
  }

  function WorkerNext(s: State, i: nat): State
    requires Enabled(s, WorkerMove(i))
  {
    var ws := s.workers;
    match ws[i]
    case Locking => s.(workers := ws[i := Testing], holder := HeldByWorker(i))
    case Relocking => s.(workers := ws[i := Testing], holder := HeldByWorker(i))
    case Testing => s.(workers := ws[i := if s.queue == [] && !s.finish then Sleepy else Choosing])
    case Sleepy => s.(workers := ws[i := Asleep], holder := Unheld)
    case Choosing =>
      if s.queue != [] then
        s.(workers := ws[i := Popped(s.queue[0])], queue := s.queue[1..], popped := s.popped + [s.queue[0]])
      else if s.finish then
        s.(workers := ws[i := Leaving])
      else  // back to line 12 with the mutex still held
        s.(workers := ws[i := Locking])
    case Popped(job) => s.(workers := ws[i := Running(job)], holder := Unheld)
    case Running(job) => s.(workers := ws[i := Freeing(job)], executed := s.executed + [job])
    case Freeing(job) => s.(workers := ws[i := Announcing], freed := s.freed + [job])
    case Announcing => s.(workers := Wake(ws)[i := Locking])
    case Leaving => s.(workers := ws[i := Departing], holder := Unheld)
    case Departing => s.(workers := Wake(ws)[i := Exited])
  }

  function Next(s: State, m: Move): State
    requires Enabled(s, m)
  {
    match m
    case MainMove => MainNext(s)
    case WorkerMove(i) => WorkerNext(s, i)
    case Spurious(i) => s.(workers := s.workers[i := Relocking])
  }

  /** The moves `run` are possible one after another from `s` and lead to `t`. */
  ghost predicate IsRun(s: State, run: seq<Move>, t: State)
    decreases |run|
  {
    if run == [] then s == t
    else Enabled(s, run[0]) && IsRun(Next(s, run[0]), run[1..], t)
  }

  ghost predicate Reachable(n: nat, k: nat, s: State) {
    exists run :: IsRun(Init(n, k), run, s)
  }

  lemma {:induction false} RunsCompose(s: State, first: seq<Move>, t: State, second: seq<Move>, u: State)
    requires IsRun(s, first, t) && IsRun(t, second, u)
    ensures IsRun(s, first + second, u)
    decreases |first|
  {
    if first == [] {
      assert first + second == second;
    } else {
      RunsCompose(Next(s, first[0]), first[1..], t, second, u);
      assert (first + second)[1..] == first[1..] + second;
    }
  }
}
