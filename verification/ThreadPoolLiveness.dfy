/**
 Progress of the thread pool: every run is finite up to spurious wakeups before the shutdown, and
 the only number of workers for which a run can get stuck is one.
 */
module ThreadPoolLiveness {
  import opened ThreadPool
  import opened ThreadPoolSafety

  // ---------------------------------------------------------------------------------------------
  // Every run is finite

  /** Steps a worker can take on its own before a broadcast or the shutdown gives it new ones. */
  function Rank(pc: Pc, finish: bool): nat {
    match pc
    case Sleepy => if finish then 10 else 6
    case Asleep => if finish then 9 else 5
    case Locking => 8
    case Relocking => 8
    case Testing => 7
    case Choosing => 6
    case Popped(_) => 5
    case Running(_) => 4
    case Freeing(_) => 3
    case Announcing => 2
    case Leaving => 5
    case Departing => 4
    case Exited => 0
  }

  function Ranks(ws: seq<Pc>, finish: bool): nat {
    if ws == [] then 0 else Rank(ws[0], finish) + Ranks(ws[1..], finish)
  }

  /** 1 when the worker owes the broadcast of line 23. */
  function Owing(pc: Pc): nat {
    if pc.Popped? || pc.Running? || pc.Freeing? || pc.Announcing? then 1 else 0
  }

  function AllOwing(ws: seq<Pc>): nat {
    if ws == [] then 0 else Owing(ws[0]) + AllOwing(ws[1..])
  }

  /** The broadcasts still to come on behalf of jobs and of the main thread, and the store to `finish`. */
  function Tokens(s: State): nat {
    2 * s.todo + |s.queue| + AllOwing(s.workers)
    + (if s.main.AddAnnouncing? then 1 else 0)
    + (if s.finish then 0 else 1)
    + (if WaitBroadcastDone(s.main) then 0 else 1)
  }

  /** Steps the main thread still has to take. */
  function MainSteps(s: State): nat {
    var n := |s.workers|;
    match s.main
    case AddLocking => n + 3 + 4 * s.todo
    case Linking => n + 3 + if s.todo == 0 then 3 else 4 * s.todo - 1
    case AddAnnouncing => n + 3 + 4 * s.todo + 2
    case AddUnlocking => n + 3 + 4 * s.todo + 1
    case SettingFinish => n + 3
    case WaitAnnouncing => n + 2
    case Joining(next) => if next <= n then n - next + 1 else 1
    case Returned => 0
  }

  /** One token pays for everything a broadcast or the shutdown can set in motion. */
  function Weight(n: nat): nat {
    10 * n + 1
  }

  function Measure(s: State): nat {
    Weight(|s.workers|) * Tokens(s) + MainSteps(s) + Ranks(s.workers, s.finish)
  }

  lemma {:induction false} SumsOfUpdate(ws: seq<Pc>, i: nat, pc: Pc, finish: bool)
    requires i < |ws|
    ensures Ranks(ws[i := pc], finish) == Ranks(ws, finish) - Rank(ws[i], finish) + Rank(pc, finish)
    ensures AllOwing(ws[i := pc]) == AllOwing(ws) - Owing(ws[i]) + Owing(pc)
  {
    if i == 0 {
      assert ws[i := pc][1..] == ws[1..];
    } else {
      assert ws[i := pc][1..] == ws[1..][i - 1 := pc];
      SumsOfUpdate(ws[1..], i - 1, pc, finish);
    }
  }

  lemma {:induction false} SumsOfWake(ws: seq<Pc>, finish: bool)
    ensures Ranks(Wake(ws), finish) <= Ranks(ws, finish) + if finish then 0 else 3 * |ws|
    ensures AllOwing(Wake(ws)) == AllOwing(ws)
  {
    if ws != [] {
      assert Wake(ws)[1..] == Wake(ws[1..]);
      SumsOfWake(ws[1..], finish);
    }
  }

  lemma {:induction false} RanksAtShutdown(ws: seq<Pc>)
    ensures Ranks(ws, true) <= Ranks(ws, false) + 4 * |ws|
  {
    if ws != [] {
      RanksAtShutdown(ws[1..]);
    }
  }

  lemma {:induction false} RanksOfFresh(ws: seq<Pc>)
    requires forall i :: 0 <= i < |ws| ==> ws[i].Locking?
    ensures Ranks(ws, false) == 8 * |ws| && AllOwing(ws) == 0
  {
    if ws != [] {
      RanksOfFresh(ws[1..]);
    }
  }

  /** Spending one token is worth more than any rise of the other two summands below the weight. */
  lemma SpendToken(weight: nat, before: nat, after: nat, rest: int, rest': int)
    requires before == after + 1 && rest' < rest + weight
    ensures weight * after + rest' < weight * before + rest
  {
    assert weight * before == weight * after + weight;
  }

  lemma MainMeasure(s: State)
    requires MainInv(s) && Enabled(s, MainMove)
    ensures Measure(MainNext(s)) < Measure(s)
  {
    var t := MainNext(s);
    var w := Weight(|s.workers|);
    SumsOfWake(s.workers, s.finish);
    RanksAtShutdown(s.workers);
    if s.main.AddAnnouncing? || s.main.SettingFinish? || s.main.WaitAnnouncing? {
      SpendToken(w, Tokens(s), Tokens(t),
                 MainSteps(s) + Ranks(s.workers, s.finish), MainSteps(t) + Ranks(t.workers, t.finish));
    } else {
      assert Tokens(t) == Tokens(s);
    }
  }

  lemma BroadcastMeasure(s: State, i: nat)
    requires i < |s.workers| && (s.workers[i].Announcing? || s.workers[i].Departing?)
    requires s.workers[i].Departing? ==> s.finish
    ensures Measure(WorkerNext(s, i)) < Measure(s)
  {
    var t := WorkerNext(s, i);
    SumsOfWake(s.workers, s.finish);
    SumsOfUpdate(Wake(s.workers), i, t.workers[i], s.finish);
    if s.workers[i].Announcing? {
      SpendToken(Weight(|s.workers|), Tokens(s), Tokens(t),
                 MainSteps(s) + Ranks(s.workers, s.finish), MainSteps(t) + Ranks(t.workers, t.finish));
    } else {
      assert Tokens(t) == Tokens(s);
    }
  }

  /** What a step without a broadcast does to the worker itself. */
  lemma LocalEffect(s: State, i: nat)
    requires LeaveInv(s) && Enabled(s, WorkerMove(i))
    requires !s.workers[i].Announcing? && !s.workers[i].Departing?
    ensures var t := WorkerNext(s, i); var pc, pc' := s.workers[i], t.workers[i];
            && t.workers == s.workers[i := pc'] && t.finish == s.finish && t.main == s.main && t.todo == s.todo
            && Rank(pc', s.finish) < Rank(pc, s.finish) && |t.queue| + Owing(pc') == |s.queue| + Owing(pc)
  {
  }

  lemma LocalMeasure(s: State, i: nat)
    requires LeaveInv(s) && Enabled(s, WorkerMove(i))
    requires !s.workers[i].Announcing? && !s.workers[i].Departing?
    ensures var t := WorkerNext(s, i); Tokens(t) == Tokens(s) && Ranks(t.workers, t.finish) < Ranks(s.workers, s.finish)
  {
    LocalEffect(s, i);
    SumsOfUpdate(s.workers, i, WorkerNext(s, i).workers[i], s.finish);
  }

  lemma WorkerMeasure(s: State, i: nat)
    requires LeaveInv(s) && Enabled(s, WorkerMove(i))
    ensures Measure(WorkerNext(s, i)) < Measure(s)
  {
    if s.workers[i].Announcing? || s.workers[i].Departing? {
      BroadcastMeasure(s, i);
    } else {
      LocalMeasure(s, i);
      var t := WorkerNext(s, i);
      assert |t.workers| == |s.workers| && t.main == s.main && t.todo == s.todo;
      assert MainSteps(t) == MainSteps(s);
    }
  }

  lemma SpuriousMeasure(s: State, i: nat)
    requires Enabled(s, Spurious(i))
    ensures Measure(Next(s, Spurious(i))) == Measure(s) + if s.finish then -1 else 3
  {
    SumsOfUpdate(s.workers, i, Relocking, s.finish);
    assert Tokens(Next(s, Spurious(i))) == Tokens(s);
  }

  /** The spurious wakeups of a run that happen before `finish` is set. */
  function EarlySpurious(s: State, run: seq<Move>, t: State): nat
    requires IsRun(s, run, t)
    decreases |run|
  {
    if run == [] then 0
    else (if run[0].Spurious? && !s.finish then 1 else 0) + EarlySpurious(Next(s, run[0]), run[1..], t)
  }

  lemma {:induction false} RunLength(n: nat, k: nat, s: State, run: seq<Move>, t: State)
    requires Inv(n, k, s) && IsRun(s, run, t)
    ensures |run| + Measure(t) <= Measure(s) + 4 * EarlySpurious(s, run, t)
    ensures s.finish ==> EarlySpurious(s, run, t) == 0
    decreases |run|
  {
    if run != [] {
      ControlStep(s, run[0]);
      DataStep(s, run[0]);
      var s' := Next(s, run[0]);
      match run[0] {
        case MainMove => MainMeasure(s);
        case WorkerMove(i) => WorkerMeasure(s, i);
        case Spurious(i) => SpuriousMeasure(s, i);
      }
      RunLength(n, k, s', run[1..], t);
    }
  }

  /**
   Every run of a pool of n workers with k tasks is finite: its length is bounded by a number that
   depends only on n, k and the spurious wakeups before tpool_wait sets `finish`.
   */
  lemma RunsAreBounded(n: nat, k: nat, run: seq<Move>, t: State)
    requires IsRun(Init(n, k), run, t)
    ensures |run| <= (10 * n + 1) * (2 * k + 2) + 4 * k + 9 * n + 3 + 4 * EarlySpurious(Init(n, k), run, t)
  {
    InitInv(n, k);
    var s := Init(n, k);
    RanksOfFresh(s.workers);
    assert Tokens(s) == 2 * k + 2 && MainSteps(s) == n + 3 + 4 * k && Ranks(s.workers, s.finish) == 8 * n;
    assert Measure(s) == (10 * n + 1) * (2 * k + 2) + 4 * k + 9 * n + 3;
    RunLength(n, k, s, run, t);
  }

  /** From the shutdown on, every run is finite whatever spurious wakeups happen. */
  lemma ShutdownIsBounded(n: nat, k: nat, s: State, run: seq<Move>, t: State)
    requires Reachable(n, k, s) && s.finish
    requires IsRun(s, run, t)
    ensures |run| <= Measure(s)
  {
    ReachableInv(n, k, s);
    RunLength(n, k, s, run, t);
  }

  // ---------------------------------------------------------------------------------------------
  // No run gets stuck

  /** No thread can move unless the system wakes a sleeper for no reason. */
  ghost predicate Stuck(s: State) {
    !s.main.Returned? && forall m :: Enabled(s, m) ==> m.Spurious?
  }

  /** In a stuck state exactly one worker exists, and it sleeps through the shutdown. */
  lemma StuckMeansLoneSleeper(n: nat, k: nat, s: State)
    requires Inv(n, k, s) && Stuck(s)
    ensures n == 1 && s.finish && s.workers[0].Asleep?
  {
    assert !Enabled(s, MainMove);
    if s.holder.HeldByWorker? {
      assert Enabled(s, WorkerMove(s.holder.i));
    }
    forall i: nat | i < n ensures s.workers[i].Asleep? || s.workers[i].Exited? {
      assert !Enabled(s, WorkerMove(i));
    }
    var last := s.main.next;
    assert s.workers[last].Asleep?;
    assert forall j :: 0 <= j < n ==> Dozing(s.workers[j]);
    assert forall j :: 0 <= j < n && Dozing(s.workers[j]) ==> j == last;
    assert Dozing(s.workers[0]) && Dozing(s.workers[n - 1]);
  }

  /** Four steps of the main thread, with nobody asleep: one call of tpool_add. */
  lemma AddRound(s: State) returns (run: seq<Move>, t: State)
    requires s.main.AddLocking? && s.holder.Unheld? && !s.finish && s.todo > 0
    requires forall i :: 0 <= i < |s.workers| ==> !s.workers[i].Asleep?
    ensures IsRun(s, run, t)
    ensures t.workers == s.workers && t.main == BeforeAdd(t.todo) && t.holder.Unheld? && !t.finish
    ensures t.todo == s.todo - 1
  {
    var m := MainMove;
    var s1 := Next(s, m);
    var s2 := Next(s1, m);
    var s3 := Next(s2, m);
    t := Next(s3, m);
    run := [m, m, m, m];
    assert Wake(s.workers) == s.workers;
    assert IsRun(s3, [m], t);
    assert IsRun(s2, [m, m], t);
    assert IsRun(s1, [m, m, m], t);
  }

  /** The only worker takes the first job from the queue ... */
  lemma LoneWorkerTakes(s: State) returns (run: seq<Move>, t: State)
    requires s.workers == [Locking] && s.holder.Unheld? && s.queue != []
    ensures IsRun(s, run, t)
    ensures t == s.(workers := [Running(s.queue[0])], queue := s.queue[1..], popped := s.popped + [s.queue[0]])
  {
    var w := WorkerMove(0);
    var s1 := Next(s, w);
    var s2 := Next(s1, w);
    var s3 := Next(s2, w);
    t := Next(s3, w);
    run := [w, w, w, w];
    assert IsRun(s3, [w], t);
    assert IsRun(s2, [w, w], t);
    assert IsRun(s1, [w, w, w], t);
  }

  /** ... and runs it. */
  lemma LoneWorkerRuns(s: State, job: nat) returns (run: seq<Move>, t: State)
    requires s.workers == [Running(job)]
    ensures IsRun(s, run, t)
    ensures t == s.(workers := [Locking], executed := s.executed + [job], freed := s.freed + [job])
  {
    var w := WorkerMove(0);
    var s1 := Next(s, w);
    var s2 := Next(s1, w);
    t := Next(s2, w);
    run := [w, w, w];
    assert IsRun(s2, [w], t);
    assert IsRun(s1, [w, w], t);
  }

  lemma LoneWorkerRound(s: State) returns (run: seq<Move>, t: State)
    requires s.workers == [Locking] && s.main.SettingFinish? && s.holder.Unheld? && !s.finish && s.queue != []
    ensures IsRun(s, run, t)
    ensures t.workers == [Locking] && t.main.SettingFinish? && t.holder.Unheld? && !t.finish
    ensures t.queue == s.queue[1..] && t.todo == s.todo
  {
    var run1, mid := LoneWorkerTakes(s);
    var run2;
    run2, t := LoneWorkerRuns(mid, s.queue[0]);
    RunsCompose(s, run1, mid, run2, t);
    run := run1 + run2;
  }

  /** The only worker tests `finish`, the shutdown broadcasts to nobody, and then the worker goes to sleep. */
  lemma MissedWakeup(s: State) returns (run: seq<Move>, t: State)
    requires s.workers == [Locking] && s.main.SettingFinish? && s.holder.Unheld? && !s.finish && s.queue == []
    ensures IsRun(s, run, t) && Stuck(t)
  {
    var w, m := WorkerMove(0), MainMove;
    var s1 := Next(s, w);
    var s2 := Next(s1, w);
    var s3 := Next(s2, m);
    var s4 := Next(s3, m);
    t := Next(s4, w);
    run := [w, w, m, m, w];
    assert Wake([Sleepy]) == [Sleepy];
    assert IsRun(s4, [w], t);
    assert IsRun(s3, [m, w], t);
    assert IsRun(s2, [m, m, w], t);
    assert IsRun(s1, [w, m, m, w], t);
  }

  lemma {:induction false} LoneWorkerCanGetStuck(s: State) returns (run: seq<Move>, t: State)
    requires s.workers == [Locking] && s.main == BeforeAdd(s.todo) && s.holder.Unheld? && !s.finish
    ensures IsRun(s, run, t) && Stuck(t)
    decreases s.todo, |s.queue|
  {
    if s.todo == 0 && s.queue == [] {
      run, t := MissedWakeup(s);
    } else {
      var run1, run2;
      var mid: State;
      if s.todo > 0 {
        run1, mid := AddRound(s);
      } else {
        run1, mid := LoneWorkerRound(s);
      }
      run2, t := LoneWorkerCanGetStuck(mid);
      run := run1 + run2;
      RunsCompose(s, run1, mid, run2, t);
    }
  }

  /**
   Some interleaving of n workers and k tasks gets stuck if and only if there is exactly one worker:
   `finish` is set without the mutex, so a lone worker can miss the only broadcast.
   */
  lemma StuckOnlyWithOneWorker(n: nat, k: nat)
    ensures (exists s :: Reachable(n, k, s) && Stuck(s)) <==> n == 1
  {
    forall s | Reachable(n, k, s) && Stuck(s) ensures n == 1 {
      ReachableInv(n, k, s);
      StuckMeansLoneSleeper(n, k, s);
    }
    if n == 1 {
      var run, t := LoneWorkerCanGetStuck(Init(1, k));
      assert Reachable(n, k, t);
    }
  }

  /**
   With two or more workers, a run that cannot go on (apart from spurious wakeups) has completed the
   shutdown: tpool_wait has returned and every job was executed and freed exactly once. Runs are
   finite (RunsAreBounded), so every run can be continued to such an end.
   */
  lemma PoolCompletes(n: nat, k: nat, s: State)
    requires n >= 2
    requires Reachable(n, k, s) && forall m :: Enabled(s, m) ==> m.Spurious?
    ensures s.main.Returned? && s.queue == []
    ensures |s.workers| == n && forall i :: 0 <= i < n ==> s.workers[i].Exited?
    ensures forall job: nat :: Times(s.executed, job) == Times(s.freed, job) == if job < k then 1 else 0
  {
    ReachableInv(n, k, s);
    if Stuck(s) {
      StuckMeansLoneSleeper(n, k, s);
    }
    WaitReturnsAfterAllJobs(n, k, s);
  }

  // ---------------------------------------------------------------------------------------------
  // The workers on their own

  /** Moves of workers only: no move of the main thread, no spurious wakeup. */
  predicate ByWorkers(run: seq<Move>) {
    forall j :: 0 <= j < |run| ==> run[j].WorkerMove?
  }

  /** No worker can move. */
  ghost predicate WorkersRest(s: State) {
    forall i: nat :: !Enabled(s, WorkerMove(i))
  }

  /** Every task added so far has been executed and freed exactly once, and none is queued. */
  ghost predicate AllDone(s: State) {
    s.queue == []
    && forall job: nat :: Times(s.executed, job) == Times(s.freed, job) == if job < s.added then 1 else 0
  }

  lemma RestingWorker(n: nat, k: nat, s: State, i: nat)
    requires Inv(n, k, s) && !MainInMutex(s.main) && WorkersRest(s) && i < n
    ensures s.workers[i].Asleep? || s.workers[i].Exited?
  {
    assert !Enabled(s, WorkerMove(i));
    if s.holder.HeldByWorker? {
      assert Enabled(s, WorkerMove(s.holder.i));
    }
  }

  /** When the workers rest although the main thread leaves them the mutex, nothing is left to do. */
  lemma RestMeansDone(n: nat, k: nat, s: State)
    requires n > 0 && Inv(n, k, s) && !MainInMutex(s.main) && WorkersRest(s)
    ensures AllDone(s)
  {
    forall i | 0 <= i < n ensures s.workers[i].Asleep? || s.workers[i].Exited? {
      RestingWorker(n, k, s, i);
    }
    assert s.workers[0].Asleep? || s.workers[0].Exited?;
    assert Dozing(s.workers[0]) || Gone(s.workers[0]);
    assert s.queue == [] && s.popped + s.queue == s.popped;
    forall job: nat ensures Times(s.executed, job) == Times(s.freed, job) == if job < s.added then 1 else 0 {
      assert JobInv(s, job);
      NoJobs(s.workers, job);
      TimesOfJobs(s.added, job);
    }
  }

  lemma WorkerStepKeepsMain(s: State, i: nat)
    requires Enabled(s, WorkerMove(i))
    ensures WorkerNext(s, i).main == s.main && WorkerNext(s, i).added == s.added && WorkerNext(s, i).finish == s.finish
  {
  }

  lemma {:induction false} WorkersKeepMain(s: State, run: seq<Move>, t: State)
    requires IsRun(s, run, t) && ByWorkers(run)
    ensures t.main == s.main && t.added == s.added && EarlySpurious(s, run, t) == 0
    decreases |run|
  {
    if run != [] {
      WorkerStepKeepsMain(s, run[0].i);
      WorkersKeepMain(Next(s, run[0]), run[1..], t);
    }
  }

  /**
   From every reachable state in which the main thread is outside the mutex, with at least one
   worker: the workers alone can only make a bounded number of moves, and when they can make no more
   every task added so far has been executed and freed exactly once.
   */
  lemma WorkersAloneGetDone(n: nat, k: nat, s: State, run: seq<Move>, t: State)
    requires n > 0 && Reachable(n, k, s) && !MainInMutex(s.main) && IsRun(s, run, t) && ByWorkers(run)
    ensures |run| <= Measure(s) && t.added == s.added
    ensures WorkersRest(t) ==> AllDone(t)
  {
    ReachableInv(n, k, s);
    WorkersKeepMain(s, run, t);
    RunLength(n, k, s, run, t);
    InvAlongRun(n, k, s, run, t);
    if WorkersRest(t) {
      RestMeansDone(n, k, t);
    }
  }

  /** So such moves lead to that point. */
  lemma {:induction false} WorkersAloneCanGetDone(n: nat, k: nat, s: State) returns (run: seq<Move>, t: State)
    requires n > 0 && Inv(n, k, s) && !MainInMutex(s.main)
    ensures IsRun(s, run, t) && ByWorkers(run) && t.added == s.added && AllDone(t)
    decreases Measure(s)
  {
    if i: nat :| Enabled(s, WorkerMove(i)) {
      var next := Next(s, WorkerMove(i));
      ControlStep(s, WorkerMove(i));
      DataStep(s, WorkerMove(i));
      WorkerMeasure(s, i);
      WorkerStepKeepsMain(s, i);
      var rest;
      rest, t := WorkersAloneCanGetDone(n, k, next);
      run := [WorkerMove(i)] + rest;
      assert run[1..] == rest;
    } else {
      RestMeansDone(n, k, s);
      run, t := [], s;
    }
  }

  // ---------------------------------------------------------------------------------------------
  // No workers at all

  /** Without workers the main thread adds its tasks and tpool_wait returns. */
  lemma {:induction false} WaitReturnsWithoutWorkers(s: State) returns (run: seq<Move>, t: State)
    requires s.workers == [] && s.main == BeforeAdd(s.todo) && s.holder.Unheld? && !s.finish
    ensures IsRun(s, run, t) && t.main.Returned?
    decreases s.todo
  {
    if s.todo == 0 {
      var m := MainMove;
      var s1 := Next(s, m);
      var s2 := Next(s1, m);
      t := Next(s2, m);
      run := [m, m, m];
      assert IsRun(s2, [m], t);
      assert IsRun(s1, [m, m], t);
    } else {
      var run1, mid := AddRound(s);
      var run2;
      run2, t := WaitReturnsWithoutWorkers(mid);
      run := run1 + run2;
      RunsCompose(s, run1, mid, run2, t);
    }
  }

  /** The return of tpool_wait means that every task was executed, if and only if there is a worker or no task. */
  lemma WaitMeansDoneIffWorkers(n: nat, k: nat)
    ensures (forall s, job: nat :: Reachable(n, k, s) && s.main.Returned? && job < k ==> Times(s.executed, job) == 1)
            <==> n > 0 || k == 0
  {
    if n > 0 {
      forall s, job: nat | Reachable(n, k, s) && s.main.Returned? && job < k ensures Times(s.executed, job) == 1 {
        WaitReturnsAfterAllJobs(n, k, s);
      }
    } else if k > 0 {
      var run, t := WaitReturnsWithoutWorkers(Init(0, k));
      assert Reachable(n, k, t);
      WaitWithoutWorkers(k, t);
      assert Times(t.executed, 0) == 0;
    }
  }
}
