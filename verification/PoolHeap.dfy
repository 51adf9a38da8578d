/**
 The thread pool on its linked queue: every move of ThreadPool is carried out on the heap. Program
 counters, mutex, flag and histories are kept as ThreadPool has them; what is refined is the queue,
 which is only there as linked nodes, and the local variable `job` of each worker, a pointer to one.
 A Pool stays in step with the transition system whatever moves are chosen, so in every interleaving
 each task node is followed only while it is live and is freed by the one worker that took it.
 */
module PoolHeap {
  import opened ThreadPool
  import opened TaskQueue

  /** The worker's local variable `job` points to a task. */
  predicate HasJob(pc: Pc) {
    pc.Popped? || pc.Running? || pc.Freeing?
  }

  /**
   Every worker that has a job points to its own node among the first `taken` nodes, that node
   carries the right job and has not been freed.
   */
  ghost predicate JobsHeld(ws: seq<Pc>, job: seq<Task?>, nodes: seq<Task>, taken: nat, freed: set<Task>) {
    && |job| == |ws| && taken <= |nodes|
    && (forall i :: 0 <= i < |ws| && HasJob(ws[i]) ==>
          job[i] != null && Live(job[i], nodes, taken, freed) && job[i].job == ws[i].job)
    && (forall i, j :: 0 <= i < j < |ws| && HasJob(ws[i]) && HasJob(ws[j]) ==> job[i] != job[j])
  }

  /** The task has been taken and not yet freed. */
  ghost predicate Live(task: Task, nodes: seq<Task>, taken: nat, freed: set<Task>)
    requires taken <= |nodes|
  {
    task.serial < taken && task == nodes[task.serial] && task !in freed
  }

  lemma HeldAfterTake(ws: seq<Pc>, job: seq<Task?>, nodes: seq<Task>, taken: nat, freed: set<Task>, i: nat,
                      ws': seq<Pc>, job': seq<Task?>)
    requires JobsHeld(ws, job, nodes, taken, freed)
    requires i < |ws| && taken < |nodes| && nodes[taken].serial == taken && nodes[taken] !in freed
    requires ws' == ws[i := Popped(nodes[taken].job)] && job' == job[i := nodes[taken]]
    ensures JobsHeld(ws', job', nodes, taken + 1, freed)
  {
  }

  lemma HeldAfterAdd(ws: seq<Pc>, job: seq<Task?>, nodes: seq<Task>, taken: nat, freed: set<Task>, task: Task)
    requires JobsHeld(ws, job, nodes, taken, freed)
    ensures JobsHeld(ws, job, nodes + [task], taken, freed)
  {
  }

  lemma HeldAfterFree(ws: seq<Pc>, job: seq<Task?>, nodes: seq<Task>, taken: nat, freed: set<Task>, i: nat)
    requires JobsHeld(ws, job, nodes, taken, freed)
    requires i < |ws| && HasJob(ws[i])
    ensures JobsHeld(ws[i := Announcing], job, nodes, taken, freed + {job[i]})
  {
  }

  /** Fewer workers have jobs, and those that do have the same. */
  ghost predicate NoNewJobs(ws: seq<Pc>, ws': seq<Pc>) {
    |ws'| == |ws| && forall i :: 0 <= i < |ws| && HasJob(ws'[i]) ==> HasJob(ws[i]) && ws'[i].job == ws[i].job
  }

  lemma HeldByFewer(ws: seq<Pc>, ws': seq<Pc>, job: seq<Task?>, nodes: seq<Task>, taken: nat, freed: set<Task>)
    requires JobsHeld(ws, job, nodes, taken, freed) && NoNewJobs(ws, ws')
    ensures JobsHeld(ws', job, nodes, taken, freed)
  {
  }

  lemma OthersGiveNoJobs(s: State, m: Move)
    requires Enabled(s, m) && (m.MainMove? ==> !s.main.Linking?)
    requires m.WorkerMove? ==> (s.workers[m.i].Choosing? ==> s.queue == [])
    ensures NoNewJobs(s.workers, Next(s, m).workers) && Next(s, m).queue == s.queue
  {
  }

  /** A move that neither links, takes nor frees a task keeps the workers' pointers right. */
  lemma HeldElsewhere(s: State, m: Move, job: seq<Task?>, nodes: seq<Task>, taken: nat, freed: set<Task>)
    requires JobsHeld(s.workers, job, nodes, taken, freed) && Enabled(s, m)
    requires m.MainMove? ==> !s.main.Linking?
    requires m.WorkerMove? ==> (s.workers[m.i].Choosing? ==> s.queue == []) && !s.workers[m.i].Freeing?
    ensures JobsHeld(Next(s, m).workers, job, nodes, taken, freed) && Next(s, m).queue == s.queue
  {
    OthersGiveNoJobs(s, m);
    HeldByFewer(s.workers, Next(s, m).workers, job, nodes, taken, freed);
  }

  /** The step of lines 18-19 when the queue is one job and the rest. */
  lemma TakingStep(s: State, i: nat, first: nat, rest: seq<nat>)
    requires i < |s.workers| && s.workers[i].Choosing? && s.queue == [first] + rest
    ensures Next(s, WorkerMove(i))
            == s.(workers := s.workers[i := Popped(first)], queue := rest, popped := s.popped + [first])
  {
  }

  /** Only linking, testing and choosing look at the queue. */
  lemma QueueDoesNotMatter(s: State, m: Move, q: seq<nat>)
    requires Enabled(s, m) && (m.MainMove? ==> !s.main.Linking?)
    requires m.WorkerMove? ==> !s.workers[m.i].Testing? && (s.workers[m.i].Choosing? ==> s.queue == q == [])
    ensures Enabled(s.(queue := q), m) && Next(s.(queue := q), m) == Next(s, m).(queue := q)
  {
  }

  /**
   The threads, and the queue as linked nodes. `control` has everything but the queue; the state of
   the transition system is put together from it and the nodes, so each method has to show that what
   it reads from the nodes and does to them is what the transition system says.
   */
  class Pool {
    var control: State       // program counters, mutex, finish flag and histories; its queue stays empty
    var queue: Queue
    var job: seq<Task?>      // the local variable `job` of each worker

    ghost predicate Valid()
      reads this, queue, queue.nodes
    {
      && queue.Valid() && control.queue == []
      && JobsHeld(control.workers, job, queue.nodes, queue.taken, queue.freed)
    }

    /** The state of the transition system. */
    ghost function View(): State
      reads this, queue
      requires queue.taken <= |queue.added|
    {
      control.(queue := queue.Contents())
    }

    /** tpool_init, for a main thread that will add k tasks. */
    constructor (n: nat, k: nat)
      ensures Valid() && View() == Init(n, k) && fresh(queue) && queue.nodes == []
    {
      control := Init(n, k);
      queue := new Queue();
      job := seq(n, i => null);
    }

    /** Line 13: the only look at the queue outside of lines 16-19 and 41-52. */
    method TestQueue(i: nat)
      requires Valid() && i < |control.workers| && control.workers[i].Testing?
      modifies this`control
      ensures Valid() && View() == Next(old(View()), WorkerMove(i))
    {
      var pc := if queue.head == null && !control.finish then Sleepy else Choosing;
      control := control.(workers := control.workers[i := pc]);
    }

    /** Lines 18-19. */
    method TakeJob(i: nat)
      requires Valid() && i < |control.workers| && control.workers[i].Choosing? && queue.head != null
      modifies this`control, this`job, queue`head, queue`taken
      ensures Valid() && View() == Next(old(View()), WorkerMove(i))
    {
      var task := queue.Take();
      TakingStep(old(View()), i, task.job, queue.Contents());
      control := control.(workers := control.workers[i := Popped(task.job)], popped := control.popped + [task.job]);
      job := job[i := task];
      HeldAfterTake(old(control.workers), old(job), queue.nodes, old(queue.taken), queue.freed, i,
                    control.workers, job);
    }

    /** Line 22. */
    method FreeJob(i: nat)
      requires Valid() && i < |control.workers| && control.workers[i].Freeing?
      modifies this`control, queue`freed
      ensures Valid() && View() == Next(old(View()), WorkerMove(i))
      ensures job[i] != null && job[i] !in old(queue.freed) && queue.freed == old(queue.freed) + {job[i]}
    {
      var task := job[i];
      assert task.job == control.workers[i].job && Live(task, queue.nodes, queue.taken, queue.freed);
      HeldAfterFree(control.workers, job, queue.nodes, queue.taken, queue.freed, i);
      queue.Free(task);
      control := control.(workers := control.workers[i := Announcing], freed := control.freed + [task.job]);
    }

    /** Lines 37-52. */
    method AddTask()
      requires Valid() && control.main.Linking?
      modifies this`control, queue, queue.nodes
      ensures Valid() && View() == Next(old(View()), MainMove)
      ensures fresh(queue.tail) && queue.nodes == old(queue.nodes) + [queue.tail]
    {
      queue.Add(control.added);
      HeldAfterAdd(control.workers, job, old(queue.nodes), queue.taken, queue.freed, queue.tail);
      control := control.(main := AddAnnouncing, added := control.added + 1,
                          todo := if control.todo == 0 then 0 else control.todo - 1);
    }

    /** Everything else leaves the queue alone. */
    method OtherStep(m: Move)
      requires Valid() && Enabled(control, m) && (m.MainMove? ==> !control.main.Linking?)
      requires m.WorkerMove? ==>
                 && !control.workers[m.i].Testing? && !control.workers[m.i].Freeing?
                 && (control.workers[m.i].Choosing? ==> queue.head == null)
      modifies this`control
      ensures Valid() && View() == Next(old(View()), m)
    {
      // line 21 follows the pointer to call the task
      assert m.WorkerMove? && control.workers[m.i].Running? ==> job[m.i] != null && job[m.i] !in queue.freed;
      HeldElsewhere(control, m, job, queue.nodes, queue.taken, queue.freed);
      QueueDoesNotMatter(control, m, queue.Contents());
      control := Next(control, m);
    }

    /** One step of one thread, chosen by the scheduler. */
    method Step(m: Move)
      requires Valid() && Enabled(control, m)
      modifies this`control, this`job, queue, queue.nodes
      ensures Valid() && View() == Next(old(View()), m)
      ensures |queue.nodes| >= |old(queue.nodes)|
      ensures forall i :: 0 <= i < |queue.nodes| ==>
                            if i < |old(queue.nodes)| then queue.nodes[i] == old(queue.nodes)[i]
                            else fresh(queue.nodes[i])
    {
      if m.MainMove? && control.main.Linking? {
        AddTask();
      } else if m.WorkerMove? && control.workers[m.i].Testing? {
        TestQueue(m.i);
      } else if m.WorkerMove? && control.workers[m.i].Choosing? && queue.head != null {
        TakeJob(m.i);
      } else if m.WorkerMove? && control.workers[m.i].Freeing? {
        FreeJob(m.i);
      } else {
        OtherStep(m);
      }
    }
  }

  /** Every run of the transition system can be carried out on the heap, and ends in the same state. */
  method Execute(n: nat, k: nat, run: seq<Move>, ghost s: State) returns (pool: Pool)
    requires IsRun(Init(n, k), run, s)
    ensures fresh(pool) && pool.Valid() && pool.View() == s
  {
    pool := new Pool(n, k);
    var j := 0;
    while j < |run|
      invariant 0 <= j <= |run|
      invariant fresh(pool) && fresh(pool.queue) && pool.Valid()
      invariant forall i :: 0 <= i < |pool.queue.nodes| ==> fresh(pool.queue.nodes[i])
      invariant IsRun(pool.View(), run[j..], s)
    {
      assert run[j..][0] == run[j] && run[j..][1..] == run[j + 1..];
      pool.Step(run[j]);
      j := j + 1;
    }
  }
}
