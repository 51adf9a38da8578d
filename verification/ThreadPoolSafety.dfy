/**
 What every interleaving of the thread pool keeps: the mutex protects the critical sections, the
 queue is FIFO, and no job is lost, repeated or leaked.
 */
module ThreadPoolSafety {
  import opened ThreadPool

  // ---------------------------------------------------------------------------------------------
  // Control: mutual exclusion, sleeping and leaving

  predicate InMutex(pc: Pc) {
    pc.Testing? || pc.Sleepy? || pc.Choosing? || pc.Popped? || pc.Leaving?
  }

  predicate MainInMutex(main: MainPc) {
    main.Linking? || main.AddAnnouncing? || main.AddUnlocking?
  }

  /** The worker has decided to exit. */
  predicate Gone(pc: Pc) {
    pc.Leaving? || pc.Departing? || pc.Exited?
  }

  /** The worker has found nothing to do and is asleep or about to be. */
  predicate Dozing(pc: Pc) {
    pc.Sleepy? || pc.Asleep?
  }

  /** The broadcast of tpool_wait is over. */
  predicate WaitBroadcastDone(main: MainPc) {
    main.Joining? || main.Returned?
  }

  ghost predicate MutexInv(s: State) {
    && (forall i :: 0 <= i < |s.workers| ==> (InMutex(s.workers[i]) <==> s.holder == HeldByWorker(i)))
    && (MainInMutex(s.main) <==> s.holder.HeldByMain?)
    && (s.holder.HeldByWorker? ==> s.holder.i < |s.workers|)
  }

  ghost predicate MainInv(s: State) {
    && (s.finish <==> s.main.WaitAnnouncing? || WaitBroadcastDone(s.main))
    && (s.main.AddLocking? || s.main.Linking? ==> s.todo > 0)
    && (s.finish || s.main.SettingFinish? ==> s.todo == 0)
    && (s.main.Joining? ==> s.main.next <= |s.workers| && forall i :: 0 <= i < s.main.next ==> s.workers[i].Exited?)
    && (s.main.Returned? ==> forall i :: 0 <= i < |s.workers| ==> s.workers[i].Exited?)
  }

  /** A worker leaves only once the pool is finished and drained; a chooser has something to choose. */
  ghost predicate LeaveInv(s: State) {
    && (forall i :: 0 <= i < |s.workers| && Gone(s.workers[i]) ==> s.finish && s.queue == [])
    && (forall i :: 0 <= i < |s.workers| && s.workers[i].Choosing? ==> s.finish || s.queue != [])
  }

  /**
   Why a late sleeper is always woken. A worker that has read `finish` as false but not yet gone to
   sleep keeps every other worker from leaving; after the broadcast of tpool_wait at most one worker
   is in that position, and as long as it sleeps no other worker has made its last broadcast.
   */
  ghost predicate SleepInv(s: State) {
    && SleepyStopsLeavers(s)
    && (WaitBroadcastDone(s.main) ==> OneDozer(s) && SleeperSeesNoExit(s))
  }

  ghost predicate SleepyStopsLeavers(s: State) {
    forall i, j :: 0 <= i < |s.workers| && 0 <= j < |s.workers| && s.workers[i].Sleepy? ==> !Gone(s.workers[j])
  }

  ghost predicate OneDozer(s: State) {
    forall i, j :: 0 <= i < |s.workers| && 0 <= j < |s.workers| && Dozing(s.workers[i]) && Dozing(s.workers[j]) ==>
                     i == j
  }

  ghost predicate SleeperSeesNoExit(s: State) {
    forall i, j :: 0 <= i < |s.workers| && 0 <= j < |s.workers| && s.workers[i].Asleep? ==> !s.workers[j].Exited?
  }

  /** Nobody sleeps, or is about to, while a task is queued, but for the moment before tpool_add broadcasts. */
  ghost predicate AwakeInv(s: State) {
    s.queue != [] && !s.main.AddAnnouncing? ==> forall i :: 0 <= i < |s.workers| ==> !Dozing(s.workers[i])
  }

  ghost predicate ControlInv(s: State) {
    MutexInv(s) && MainInv(s) && LeaveInv(s) && SleepInv(s) && AwakeInv(s)
  }

  lemma MutexStep(s: State, m: Move)
    requires MutexInv(s) && LeaveInv(s) && Enabled(s, m)
    ensures MutexInv(Next(s, m))
  {
  }

  lemma MainStep(s: State, m: Move)
    requires MainInv(s) && Enabled(s, m)
    ensures MainInv(Next(s, m))
  {
  }

  lemma LeaveStep(s: State, m: Move)
    requires MutexInv(s) && MainInv(s) && LeaveInv(s) && Enabled(s, m)
    ensures LeaveInv(Next(s, m))
  {
  }

  lemma SleepyStep(s: State, m: Move)
    requires MutexInv(s) && LeaveInv(s) && SleepyStopsLeavers(s) && Enabled(s, m)
    ensures SleepyStopsLeavers(Next(s, m))
  {
  }

  lemma OneDozerStep(s: State, m: Move)
    requires MutexInv(s) && MainInv(s) && (WaitBroadcastDone(s.main) ==> OneDozer(s)) && Enabled(s, m)
    ensures var t := Next(s, m); WaitBroadcastDone(t.main) ==> OneDozer(t)
  {
  }

  lemma SleeperStep(s: State, m: Move)
    requires MainInv(s) && SleepInv(s) && Enabled(s, m)
    ensures var t := Next(s, m); WaitBroadcastDone(t.main) ==> SleeperSeesNoExit(t)
  {
  }

  /** The broadcast of tpool_add is what keeps this up. */
  lemma AwakeStep(s: State, m: Move)
    requires MutexInv(s) && AwakeInv(s) && Enabled(s, m)
    ensures AwakeInv(Next(s, m))
  {
  }

  lemma ControlStep(s: State, m: Move)
    requires ControlInv(s) && Enabled(s, m)
    ensures ControlInv(Next(s, m))
  {
    MutexStep(s, m);
    MainStep(s, m);
    LeaveStep(s, m);
    SleepyStep(s, m);
    OneDozerStep(s, m);
    SleeperStep(s, m);
    AwakeStep(s, m);
  }

  // ---------------------------------------------------------------------------------------------
  // Broadcasts

  /** The four broadcasts: lines 23, 28, 53 and 60. */
  predicate Broadcasts(s: State, m: Move)
    requires Enabled(s, m)
  {
    match m
    case MainMove => s.main.AddAnnouncing? || s.main.WaitAnnouncing?
    case WorkerMove(i) => s.workers[i].Announcing? || s.workers[i].Departing?
    case Spurious(_) => false
  }

  /** A sleeping worker is woken by every broadcast, and by nothing else but a spurious wakeup. */
  lemma WokenIffBroadcast(s: State, m: Move, i: nat)
    requires Enabled(s, m) && i < |s.workers| && s.workers[i].Asleep?
    ensures |Next(s, m).workers| == |s.workers|
    ensures Next(s, m).workers[i] == if Broadcasts(s, m) || m == Spurious(i) then Relocking else Asleep
  {
  }

  // ---------------------------------------------------------------------------------------------
  // Data: the queue and the history of each job

  /** The jobs 0, 1, ..., n-1. */
  function Jobs(n: nat): (r: seq<nat>)
    ensures |r| == n && forall i :: 0 <= i < n ==> r[i] == i
  {
    seq(n, i => i)
  }

  /** How often `job` occurs in a history. */
  function Times(history: seq<nat>, job: nat): nat {
    if history == [] then 0
    else Times(history[..|history| - 1], job) + if history[|history| - 1] == job then 1 else 0
  }

  lemma TimesAppend(history: seq<nat>, x: nat, job: nat)
    ensures Times(history + [x], job) == Times(history, job) + if x == job then 1 else 0
  {
    assert (history + [x])[..|history|] == history;
  }

  /** 1 when the worker has taken the job but not yet executed it. */
  function Pending(pc: Pc, job: nat): nat {
    if (pc.Popped? || pc.Running?) && pc.job == job then 1 else 0
  }

  /** 1 when the worker has executed the job but not yet freed it. */
  function Unfreed(pc: Pc, job: nat): nat {
    if pc.Freeing? && pc.job == job then 1 else 0
  }

  function AllPending(ws: seq<Pc>, job: nat): nat {
    if ws == [] then 0 else Pending(ws[0], job) + AllPending(ws[1..], job)
  }

  function AllUnfreed(ws: seq<Pc>, job: nat): nat {
    if ws == [] then 0 else Unfreed(ws[0], job) + AllUnfreed(ws[1..], job)
  }

  lemma {:induction false} JobsOfUpdate(ws: seq<Pc>, i: nat, pc: Pc, job: nat)
    requires i < |ws|
    ensures AllPending(ws[i := pc], job) == AllPending(ws, job) - Pending(ws[i], job) + Pending(pc, job)
    ensures AllUnfreed(ws[i := pc], job) == AllUnfreed(ws, job) - Unfreed(ws[i], job) + Unfreed(pc, job)
  {
    if i == 0 {
      assert ws[i := pc][1..] == ws[1..];
    } else {
      assert ws[i := pc][1..] == ws[1..][i - 1 := pc];
      JobsOfUpdate(ws[1..], i - 1, pc, job);
    }
  }

  lemma {:induction false} JobsOfWake(ws: seq<Pc>, job: nat)
    ensures AllPending(Wake(ws), job) == AllPending(ws, job)
    ensures AllUnfreed(Wake(ws), job) == AllUnfreed(ws, job)
  {
    if ws != [] {
      assert Wake(ws)[1..] == Wake(ws[1..]);
      JobsOfWake(ws[1..], job);
    }
  }

  lemma {:induction false} NoJobs(ws: seq<Pc>, job: nat)
    requires forall i :: 0 <= i < |ws| ==> !ws[i].Popped? && !ws[i].Running? && !ws[i].Freeing?
    ensures AllPending(ws, job) == 0 && AllUnfreed(ws, job) == 0
  {
    if ws != [] {
      NoJobs(ws[1..], job);
    }
  }

  /** Every popped job is waiting to be executed or executed; every executed job is about to be freed or freed. */
  ghost predicate JobInv(s: State, job: nat) {
    && Times(s.executed, job) + AllPending(s.workers, job) == Times(s.popped, job)
    && Times(s.freed, job) + AllUnfreed(s.workers, job) == Times(s.executed, job)
  }

  ghost predicate DataInv(s: State) {
    && s.popped + s.queue == Jobs(s.added)
    && forall job: nat :: JobInv(s, job)
  }

  lemma FifoStep(s: State, m: Move)
    requires s.popped + s.queue == Jobs(s.added) && Enabled(s, m)
    ensures var t := Next(s, m); t.popped + t.queue == Jobs(t.added)
  {
    var t := Next(s, m);
    if m.MainMove? && s.main.Linking? {
      assert t.popped + t.queue == (s.popped + s.queue) + [s.added];
    } else if m.WorkerMove? && s.workers[m.i].Choosing? && s.queue != [] {
      assert t.popped + t.queue == s.popped + s.queue;
    }
  }

  lemma JobStep(s: State, m: Move, job: nat)
    requires JobInv(s, job) && Enabled(s, m)
    ensures JobInv(Next(s, m), job)
  {
    JobsOfWake(s.workers, job);
    if m.Spurious? {
      JobsOfUpdate(s.workers, m.i, Relocking, job);
    } else if m.WorkerMove? {
      WorkerJobStep(s, m.i, job);
    }
  }

  lemma JobsOfWorkerStep(s: State, i: nat, job: nat)
    requires Enabled(s, WorkerMove(i))
    ensures var ws, ws' := s.workers, WorkerNext(s, i).workers;
            && AllPending(ws', job) == AllPending(ws, job) - Pending(ws[i], job) + Pending(ws'[i], job)
            && AllUnfreed(ws', job) == AllUnfreed(ws, job) - Unfreed(ws[i], job) + Unfreed(ws'[i], job)
  {
    var pc := WorkerNext(s, i).workers[i];
    JobsOfWake(s.workers, job);
    JobsOfUpdate(Wake(s.workers), i, pc, job);
    JobsOfUpdate(s.workers, i, pc, job);
  }

  /** Which history a worker's step writes to. */
  lemma HistoryOfWorkerStep(s: State, i: nat, job: nat)
    requires Enabled(s, WorkerMove(i))
    ensures var t := WorkerNext(s, i); var pc := s.workers[i];
            && Times(t.popped, job)
               == Times(s.popped, job) + (if pc.Choosing? && s.queue != [] && s.queue[0] == job then 1 else 0)
            && Times(t.executed, job) == Times(s.executed, job) + (if pc == Running(job) then 1 else 0)
            && Times(t.freed, job) == Times(s.freed, job) + (if pc == Freeing(job) then 1 else 0)
  {
    match s.workers[i]
    case Choosing =>
      if s.queue != [] {
        TimesAppend(s.popped, s.queue[0], job);
      }
    case Running(done) => TimesAppend(s.executed, done, job);
    case Freeing(done) => TimesAppend(s.freed, done, job);
    case _ =>
  }

  lemma WorkerJobStep(s: State, i: nat, job: nat)
    requires JobInv(s, job) && Enabled(s, WorkerMove(i))
    ensures JobInv(WorkerNext(s, i), job)
  {
    JobsOfWorkerStep(s, i, job);
    HistoryOfWorkerStep(s, i, job);
  }

  lemma DataStep(s: State, m: Move)
    requires DataInv(s) && Enabled(s, m)
    ensures DataInv(Next(s, m))
  {
    FifoStep(s, m);
    forall job: nat ensures JobInv(Next(s, m), job) {
      JobStep(s, m, job);
    }
  }

  // ---------------------------------------------------------------------------------------------
  // Runs

  ghost predicate Inv(n: nat, k: nat, s: State) {
    && |s.workers| == n
    && s.added + s.todo == k
    && ControlInv(s)
    && DataInv(s)
  }

  lemma {:induction false} InvAlongRun(n: nat, k: nat, s: State, run: seq<Move>, t: State)
    requires Inv(n, k, s) && IsRun(s, run, t)
    ensures Inv(n, k, t)
    decreases |run|
  {
    if run != [] {
      ControlStep(s, run[0]);
      DataStep(s, run[0]);
      InvAlongRun(n, k, Next(s, run[0]), run[1..], t);
    }
  }

  lemma InitInv(n: nat, k: nat)
    ensures Inv(n, k, Init(n, k))
  {
    forall job: nat ensures JobInv(Init(n, k), job) {
      NoJobs(Init(n, k).workers, job);
    }
  }

  lemma ReachableInv(n: nat, k: nat, s: State)
    requires Reachable(n, k, s)
    ensures Inv(n, k, s)
  {
    InitInv(n, k);
    var run :| IsRun(Init(n, k), run, s);
    InvAlongRun(n, k, Init(n, k), run, s);
  }

  /** At most one thread is inside a critical section, in every reachable state. */
  lemma MutualExclusion(n: nat, k: nat, s: State, i: nat, j: nat)
    requires Reachable(n, k, s)
    requires i < n && j < n
    ensures |s.workers| == n
    ensures InMutex(s.workers[i]) && InMutex(s.workers[j]) ==> i == j
    ensures !(InMutex(s.workers[i]) && MainInMutex(s.main))
  {
    ReachableInv(n, k, s);
  }

  /** No lost wakeup: in every reachable state with a queued task, once tpool_add has broadcast, nobody sleeps. */
  lemma NoLostWakeup(n: nat, k: nat, s: State, i: nat)
    requires Reachable(n, k, s) && s.queue != [] && !s.main.AddAnnouncing? && i < n
    ensures |s.workers| == n && !s.workers[i].Sleepy? && !s.workers[i].Asleep?
  {
    ReachableInv(n, k, s);
  }

  /** Jobs leave the queue in the order they were added, in every reachable state. */
  lemma QueueIsFifo(n: nat, k: nat, s: State)
    requires Reachable(n, k, s)
    ensures s.popped + s.queue == Jobs(s.added)
  {
    ReachableInv(n, k, s);
  }

  /** No job is executed twice or freed twice, freed before it is executed, or executed before it is added. */
  lemma NeverTwice(n: nat, k: nat, s: State, job: nat)
    requires Reachable(n, k, s)
    ensures Times(s.freed, job) <= Times(s.executed, job) <= if job < s.added then 1 else 0
  {
    ReachableInv(n, k, s);
    assert JobInv(s, job);
    assert s.popped == (s.popped + s.queue)[..|s.popped|] == Jobs(|s.popped|);
    TimesOfJobs(|s.popped|, job);
  }

  lemma {:induction false} TimesOfJobs(n: nat, job: nat)
    ensures Times(Jobs(n), job) == if job < n then 1 else 0
  {
    if n > 0 {
      assert Jobs(n)[..n - 1] == Jobs(n - 1);
      TimesOfJobs(n - 1, job);
    }
  }

  /**
   When tpool_wait returns, every worker has exited, the queue is empty, and each of the k added
   jobs has been executed exactly once and freed exactly once. Without workers tpool_wait returns
   too, but nobody has run the jobs: n > 0 is needed.
   */
  lemma WaitReturnsAfterAllJobs(n: nat, k: nat, s: State)
    requires n > 0
    requires Reachable(n, k, s) && s.main.Returned?
    ensures |s.workers| == n && forall i :: 0 <= i < n ==> s.workers[i].Exited?
    ensures s.queue == [] && s.popped == Jobs(k)
    ensures forall job: nat :: Times(s.executed, job) == Times(s.freed, job) == if job < k then 1 else 0
  {
    ReachableInv(n, k, s);
    assert Gone(s.workers[0]);
    assert s.popped + s.queue == s.popped;
    forall job: nat ensures Times(s.executed, job) == Times(s.freed, job) == if job < k then 1 else 0 {
      assert JobInv(s, job);
      NoJobs(s.workers, job);
      TimesOfJobs(k, job);
    }
  }

  lemma {:induction false} NoWorkersRunNothing(s: State, run: seq<Move>, t: State)
    requires s.workers == [] && s.popped == s.executed == [] && IsRun(s, run, t)
    ensures t.popped == t.executed == []
    decreases |run|
  {
    if run != [] {
      NoWorkersRunNothing(Next(s, run[0]), run[1..], t);
    }
  }

  /** With no worker at all tpool_wait returns too, but every job is still in the queue. */
  lemma WaitWithoutWorkers(k: nat, s: State)
    requires Reachable(0, k, s) && s.main.Returned?
    ensures s.executed == [] && s.queue == Jobs(k)
  {
    ReachableInv(0, k, s);
    var run :| IsRun(Init(0, k), run, s);
    NoWorkersRunNothing(Init(0, k), run, s);
  }
}
